/**
 Matching addresses against prefixes (src/framework/CIDR.h). An address in memory is made of words in
 network byte order; `htonl` gives that order from the value of the word.
 */
module Cidr {

  const ONES: bv32 := 0xFFFF_FFFF

  /** On a machine that stores the low byte of a word first, it swaps the bytes. */
  function htonl(x: bv32): bv32
  {
    ((x & 0xFF) << 24) | ((x & 0xFF00) << 8) | ((x >> 8) & 0xFF00) | (x >> 24)
  }

  function Mask(bits: bv8): bv32
    requires bits <= 32
  {
    ONES << (32 - bits)
  }

  /** Bit i of a word, counted from the most significant. */
  predicate Bit(x: bv32, i: bv8)
    requires i < 32
  {
    (x << i) & 0x8000_0000 != 0
  }

  /** The first `bits` bits are the same. */
  predicate SameTop(x: bv32, y: bv32, bits: bv8)
    requires bits <= 32
    decreases bits
  {
    bits == 0 || (SameTop(x, y, bits - 1) && Bit(x, bits - 1) == Bit(y, bits - 1))
  }

  /** Words as they are in memory agree where the mask looks. */
  predicate Masked(a: bv32, n: bv32, bits: bv8)
    requires bits <= 32
  {
    (a ^ n) & htonl(Mask(bits)) == 0
  }

  predicate cidr_match(addr: bv32, net: bv32, bits: bv8)
    requires bits <= 32
  {
    bits == 0 || Masked(addr, net, bits)
  }

  // ---- One word ---------------------------------------------------------------------------------

  lemma SwapUnderMask(x: bv32, y: bv32, m: bv32)
    ensures (htonl(x) ^ htonl(y)) & htonl(m) == htonl((x ^ y) & m)
  {
  }

  lemma SwapZero(z: bv32)
    ensures htonl(z) == 0 <==> z == 0
  {
  }

  lemma SwapInjective(x: bv32, y: bv32)
    ensures htonl(x) == htonl(y) <==> x == y
  {
  }

  /** Comparing under a mask does not depend on the byte order. */
  lemma SwapMatch(x: bv32, y: bv32, m: bv32)
    ensures (htonl(x) ^ htonl(y)) & htonl(m) == 0 <==> (x ^ y) & m == 0
  {
    SwapUnderMask(x, y, m);
    SwapZero((x ^ y) & m);
  }

  lemma MaskGrows(x: bv32, y: bv32, bits: bv8)
    requires bits < 32
    ensures (x ^ y) & Mask(bits + 1) == 0 <==> (x ^ y) & Mask(bits) == 0 && Bit(x, bits) == Bit(y, bits)
  {
  }

  lemma {:induction false} MaskIsTopBits(x: bv32, y: bv32, bits: bv8)
    requires bits <= 32
    ensures (x ^ y) & Mask(bits) == 0 <==> SameTop(x, y, bits)
    decreases bits
  {
    if bits != 0 {
      MaskIsTopBits(x, y, bits - 1);
      MaskGrows(x, y, bits - 1);
    }
  }

  lemma TopBitsGiveBounds(x: bv32, y: bv32, m: bv32)
    requires (x ^ y) & m == 0
    ensures y & m <= x <= y | !m
  {
  }

  lemma BoundsGiveTopBits(x: bv32, y: bv32, bits: bv8)
    requires bits <= 32 && y & Mask(bits) <= x <= y | !Mask(bits)
    ensures (x ^ y) & Mask(bits) == 0
  {
  }

  /** The words with the same top bits as y are those from y & Mask to y | !Mask. */
  lemma WordInterval(x: bv32, y: bv32, bits: bv8)
    requires bits <= 32
    ensures SameTop(x, y, bits) <==> y & Mask(bits) <= x <= y | !Mask(bits)
  {
    MaskIsTopBits(x, y, bits);
    if SameTop(x, y, bits) {
      TopBitsGiveBounds(x, y, Mask(bits));
    }
    if y & Mask(bits) <= x <= y | !Mask(bits) {
      BoundsGiveTopBits(x, y, bits);
    }
  }

  /** IPv4: a match is agreement on the first `bits` bits. */
  lemma MatchIsPrefix(x: bv32, y: bv32, bits: bv8)
    requires bits <= 32
    ensures cidr_match(htonl(x), htonl(y), bits) <==> SameTop(x, y, bits)
  {
    SwapMatch(x, y, Mask(bits));
    MaskIsTopBits(x, y, bits);
  }

  /** IPv4: the addresses matched are one interval, as a "lo-hi" range would give it. */
  lemma MatchIsInterval(x: bv32, y: bv32, bits: bv8)
    requires bits <= 32
    ensures cidr_match(htonl(x), htonl(y), bits) <==> y & Mask(bits) <= x <= y | !Mask(bits)
  {
    MatchIsPrefix(x, y, bits);
    WordInterval(x, y, bits);
  }

  lemma {:induction false} SameTopSymmetric(x: bv32, y: bv32, bits: bv8)
    requires bits <= 32
    ensures SameTop(x, y, bits) <==> SameTop(y, x, bits)
    decreases bits
  {
    if bits != 0 {
      SameTopSymmetric(x, y, bits - 1);
    }
  }

  lemma MatchEitherWay(x: bv32, y: bv32, bits: bv8)
    requires bits <= 32
    ensures cidr_match(htonl(x), htonl(y), bits) <==> cidr_match(htonl(y), htonl(x), bits)
  {
    MatchIsPrefix(x, y, bits);
    MatchIsPrefix(y, x, bits);
    SameTopSymmetric(x, y, bits);
  }

  /** The "lo-hi" form of a range, once parsed. */
  predicate InSpan(target: bv32, lo: bv32, hi: bv32)
  {
    lo <= target <= hi
  }

  /** The "net/bits" form; the range takes the place of the address in the match. */
  predicate InPrefix(target: bv32, net: bv32, bits: bv8)
    requires bits <= 32
  {
    cidr_match(htonl(net), htonl(target), bits)
  }

  /** A prefix means the same as the span from its first to its last address. */
  lemma PrefixIsSpan(target: bv32, net: bv32, bits: bv8)
    requires bits <= 32
    ensures InPrefix(target, net, bits) <==> InSpan(target, net & Mask(bits), net | !Mask(bits))
  {
    MatchEitherWay(net, target, bits);
    MatchIsInterval(target, net, bits);
  }

  lemma {:induction false} SameTopChain(x: bv32, y: bv32, z: bv32, bits: bv8, more: bv8)
    requires bits <= more <= 32 && SameTop(x, z, more)
    ensures SameTop(x, y, bits) <==> SameTop(z, y, bits)
    decreases more, bits
  {
    if bits < more {
      SameTopChain(x, y, z, bits, more - 1);
    } else if bits > 0 {
      SameTopChain(x, y, z, bits - 1, more - 1);
    }
  }

  /** IPv4: of two blocks the longer-prefixed one lies inside the other or has nothing in common with it. */
  lemma NestedOrDisjoint(x: bv32, y: bv32, bits: bv8, z: bv32, more: bv8)
    requires bits <= more <= 32 && cidr_match(htonl(x), htonl(z), more)
    ensures cidr_match(htonl(x), htonl(y), bits) <==> cidr_match(htonl(z), htonl(y), bits)
  {
    MatchIsPrefix(x, z, more);
    SameTopChain(x, y, z, bits, more);
    MatchIsPrefix(x, y, bits);
    MatchIsPrefix(z, y, bits);
  }

  // ---- Four words -------------------------------------------------------------------------------

  datatype In6 = In6(w0: bv32, w1: bv32, w2: bv32, w3: bv32)

  function Word(a: In6, k: bv8): bv32
    requires k < 4
  {
    if k == 0 then a.w0 else if k == 1 then a.w1 else if k == 2 then a.w2 else a.w3
  }

  /** An address as it is in memory. */
  function Stored(a: In6): In6
  {
    In6(htonl(a.w0), htonl(a.w1), htonl(a.w2), htonl(a.w3))
  }

  /** What comparing the bytes of the first words finds. */
  predicate SameWords(a: In6, n: In6, whole: bv8)
    requires whole <= 4
    decreases whole
  {
    whole == 0 || (SameWords(a, n, whole - 1) && Word(a, whole - 1) == Word(n, whole - 1))
  }

  predicate cidr6_match(a: In6, n: In6, bits: bv8)
    requires bits <= 128
  {
    var whole, incomplete := bits >> 5, bits & 0x1F;
    && (whole == 0 || SameWords(a, n, whole))
    && (incomplete == 0 || Masked(Word(a, whole), Word(n, whole), incomplete))
  }

  /** Bit i of an address, counted from the most significant. */
  predicate Bit6(a: In6, i: bv8)
    requires i < 128
  {
    Bit(Word(a, i >> 5), i & 0x1F)
  }

  predicate SameTop6(x: In6, y: In6, bits: bv8)
    requires bits <= 128
    decreases bits
  {
    bits == 0 || (SameTop6(x, y, bits - 1) && Bit6(x, bits - 1) == Bit6(y, bits - 1))
  }

  lemma AllBitsOfAWord(x: bv32, y: bv32)
    ensures SameTop(x, y, 32) <==> x == y
  {
    MaskIsTopBits(x, y, 32);
    XorUnderOnes(x, y);
  }

  lemma XorUnderOnes(x: bv32, y: bv32)
    ensures (x ^ y) & Mask(32) == 0 <==> x == y
  {
  }

  lemma OneBitLess(bits: bv8)
    requires 0 < bits <= 128
    ensures bits & 0x1F != 0 ==> (bits - 1) >> 5 == bits >> 5 && (bits - 1) & 0x1F == (bits & 0x1F) - 1
    ensures bits & 0x1F == 0 ==> (bits - 1) >> 5 == (bits >> 5) - 1 && (bits - 1) & 0x1F == 31
    ensures bits >> 5 <= 4 && (bits & 0x1F != 0 ==> bits >> 5 < 4)
  {
  }

  /** Agreement on whole words and on the first bits of one more. */
  predicate SameParts(x: In6, y: In6, whole: bv8, rest: bv8)
    requires whole <= 4 && rest < 32 && (rest != 0 ==> whole < 4)
  {
    SameWords(x, y, whole) && (rest == 0 || SameTop(Word(x, whole), Word(y, whole), rest))
  }

  lemma BitOfWord(x: In6, i: bv8, whole: bv8, rest: bv8)
    requires i < 128 && whole == i >> 5 && rest == i & 0x1F
    ensures whole < 4 && rest < 32 && Bit6(x, i) == Bit(Word(x, whole), rest)
  {
  }

  lemma OneBitMore(a: bv32, b: bv32, rest: bv8)
    requires 0 < rest <= 32
    ensures SameTop(a, b, rest) == (SameTop(a, b, rest - 1) && Bit(a, rest - 1) == Bit(b, rest - 1))
  {
  }

  /** One bit more, inside word number `whole`. */
  lemma WithinAWord(x: In6, y: In6, bits: bv8, whole: bv8, rest: bv8)
    requires 0 < bits <= 128 && whole < 4 && 0 < rest < 32
    requires (bits - 1) >> 5 == whole && (bits - 1) & 0x1F == rest - 1
    requires SameTop6(x, y, bits - 1) <==> SameParts(x, y, whole, rest - 1)
    ensures SameTop6(x, y, bits) <==> SameParts(x, y, whole, rest)
  {
    BitOfWord(x, bits - 1, whole, rest - 1);
    BitOfWord(y, bits - 1, whole, rest - 1);
    OneBitMore(Word(x, whole), Word(y, whole), rest);
  }

  /** The last bit of word number `whole - 1`. */
  lemma EndOfAWord(x: In6, y: In6, bits: bv8, whole: bv8)
    requires 0 < bits <= 128 && 0 < whole <= 4
    requires (bits - 1) >> 5 == whole - 1 && (bits - 1) & 0x1F == 31
    requires SameTop6(x, y, bits - 1) <==> SameParts(x, y, whole - 1, 31)
    ensures SameTop6(x, y, bits) <==> SameParts(x, y, whole, 0)
  {
    var a, b := Word(x, whole - 1), Word(y, whole - 1);
    assert Bit6(x, bits - 1) == Bit(a, 31) && Bit6(y, bits - 1) == Bit(b, 31);
    LastBit(a, b);
  }

  lemma LastBit(a: bv32, b: bv32)
    ensures SameTop(a, b, 31) && Bit(a, 31) == Bit(b, 31) <==> a == b
  {
    AllBitsOfAWord(a, b);
    var all: bv8 := 32;
    assert SameTop(a, b, all) == (SameTop(a, b, all - 1) && Bit(a, all - 1) == Bit(b, all - 1));
  }

  lemma {:induction false} PrefixByParts(x: In6, y: In6, bits: bv8, whole: bv8, rest: bv8)
    requires bits <= 128 && whole == bits >> 5 && rest == bits & 0x1F
    ensures whole <= 4 && (rest != 0 ==> whole < 4)
    ensures SameTop6(x, y, bits) <==> SameParts(x, y, whole, rest)
    decreases bits
  {
    if bits != 0 {
      OneBitLess(bits);
      if rest != 0 {
        PrefixByParts(x, y, bits - 1, whole, rest - 1);
        WithinAWord(x, y, bits, whole, rest);
      } else {
        PrefixByParts(x, y, bits - 1, whole - 1, 31);
        EndOfAWord(x, y, bits, whole);
      }
    }
  }

  lemma {:induction false} SameWordsStored(x: In6, y: In6, whole: bv8)
    requires whole <= 4
    ensures SameWords(Stored(x), Stored(y), whole) <==> SameWords(x, y, whole)
    decreases whole
  {
    if whole != 0 {
      SameWordsStored(x, y, whole - 1);
      WordStored(x, whole - 1);
      WordStored(y, whole - 1);
      SwapInjective(Word(x, whole - 1), Word(y, whole - 1));
    }
  }

  lemma WordStored(x: In6, k: bv8)
    requires k < 4
    ensures Word(Stored(x), k) == htonl(Word(x, k))
  {
  }

  lemma MaskedWordStored(x: In6, y: In6, k: bv8, bits: bv8)
    requires k < 4 && 0 < bits < 32
    ensures Masked(Word(Stored(x), k), Word(Stored(y), k), bits) <==> SameTop(Word(x, k), Word(y, k), bits)
  {
    MatchIsPrefix(Word(x, k), Word(y, k), bits);
    WordStored(x, k);
    WordStored(y, k);
  }

  /** IPv6: whole words and one masked word together are agreement on the first `bits` bits. */
  lemma Match6IsPrefix(x: In6, y: In6, bits: bv8)
    requires bits <= 128
    ensures cidr6_match(Stored(x), Stored(y), bits) <==> SameTop6(x, y, bits)
  {
    var whole, rest := bits >> 5, bits & 0x1F;
    PrefixByParts(x, y, bits, whole, rest);
    SameWordsStored(x, y, whole);
    if rest != 0 {
      MaskedWordStored(x, y, whole, rest);
    }
  }

  // ---- Order ------------------------------------------------------------------------------------

  /** The bits of an address as a function of their index. */
  function BitsOf(x: In6): bv8 -> bool
  {
    (i: bv8) => i < 128 && Bit6(x, i)
  }

  /** The same bits from i up to `bits`. */
  predicate Agree(f: bv8 -> bool, g: bv8 -> bool, i: bv8, bits: bv8)
    requires i <= bits
    decreases bits - i
  {
    i == bits || (f(i) == g(i) && Agree(f, g, i + 1, bits))
  }

  /** From bit i on, f is at most g as a binary number: the first difference is a 0 against a 1. */
  predicate AtMost(f: bv8 -> bool, g: bv8 -> bool, i: bv8)
    requires i <= 128
    decreases 128 - i
  {
    i == 128 || (!f(i) && g(i)) || (f(i) == g(i) && AtMost(f, g, i + 1))
  }

  /** lo is y with all bits after the first `bits` cleared, and hi is y with all of them set. */
  ghost predicate Ends(lo: bv8 -> bool, hi: bv8 -> bool, y: bv8 -> bool, bits: bv8)
  {
    forall i: bv8 | i < 128 :: lo(i) == (i < bits && y(i)) && hi(i) == (i >= bits || y(i))
  }

  lemma {:induction false} AgreeSnoc(f: bv8 -> bool, g: bv8 -> bool, i: bv8, bits: bv8)
    requires i < bits
    ensures Agree(f, g, i, bits) <==> Agree(f, g, i, bits - 1) && f(bits - 1) == g(bits - 1)
    decreases bits - i
  {
    if i < bits - 1 {
      AgreeSnoc(f, g, i + 1, bits);
    }
  }

  lemma {:induction false} PastThePrefix(
      x: bv8 -> bool, y: bv8 -> bool, lo: bv8 -> bool, hi: bv8 -> bool, bits: bv8, i: bv8)
    requires bits <= i <= 128 && Ends(lo, hi, y, bits)
    ensures AtMost(lo, x, i) && AtMost(x, hi, i)
    decreases 128 - i
  {
    if i < 128 {
      PastThePrefix(x, y, lo, hi, bits, i + 1);
      assert !lo(i) && hi(i);
    }
  }

  lemma {:induction false} IntervalOfBits(
      x: bv8 -> bool, y: bv8 -> bool, lo: bv8 -> bool, hi: bv8 -> bool, bits: bv8, i: bv8)
    requires i <= bits <= 128 && Ends(lo, hi, y, bits)
    ensures AtMost(lo, x, i) && AtMost(x, hi, i) <==> Agree(x, y, i, bits)
    decreases 128 - i
  {
    if i < bits {
      IntervalOfBits(x, y, lo, hi, bits, i + 1);
      assert lo(i) == y(i) && hi(i) == y(i);
    } else {
      PastThePrefix(x, y, lo, hi, bits, i);
    }
  }

  lemma {:induction false} TopBitsAgree(x: In6, y: In6, bits: bv8)
    requires bits <= 128
    ensures SameTop6(x, y, bits) <==> Agree(BitsOf(x), BitsOf(y), 0, bits)
    decreases bits
  {
    if bits != 0 {
      AgreeSnoc(BitsOf(x), BitsOf(y), 0, bits);
      TopBitsAgree(x, y, bits - 1);
    }
  }

  /** How many bits of word k belong to the prefix. */
  function WordBits(bits: bv8, k: bv8): (r: bv8)
    requires bits <= 128 && k < 4
    ensures r <= 32
  {
    if bits >> 5 > k then 32 else if bits >> 5 == k then bits & 0x1F else 0
  }

  function Lowest(y: In6, bits: bv8): In6
    requires bits <= 128
  {
    In6(y.w0 & Mask(WordBits(bits, 0)), y.w1 & Mask(WordBits(bits, 1)),
        y.w2 & Mask(WordBits(bits, 2)), y.w3 & Mask(WordBits(bits, 3)))
  }

  function Highest(y: In6, bits: bv8): In6
    requires bits <= 128
  {
    In6(y.w0 | !Mask(WordBits(bits, 0)), y.w1 | !Mask(WordBits(bits, 1)),
        y.w2 | !Mask(WordBits(bits, 2)), y.w3 | !Mask(WordBits(bits, 3)))
  }

  lemma LowestCleared(y: In6, bits: bv8, i: bv8)
    requires bits <= i < 128
    ensures !Bit6(Lowest(y, bits), i)
  {
  }

  lemma LowestKept(y: In6, bits: bv8, i: bv8)
    requires i < bits <= 128 && Bit6(y, i)
    ensures Bit6(Lowest(y, bits), i)
  {
  }

  lemma LowestAddsNothing(y: In6, bits: bv8, i: bv8)
    requires bits <= 128 && i < 128 && !Bit6(y, i)
    ensures !Bit6(Lowest(y, bits), i)
  {
  }

  lemma HighestSet(y: In6, bits: bv8, i: bv8)
    requires bits <= i < 128
    ensures Bit6(Highest(y, bits), i)
  {
  }

  lemma HighestKept(y: In6, bits: bv8, i: bv8)
    requires i < bits <= 128 && !Bit6(y, i)
    ensures !Bit6(Highest(y, bits), i)
  {
  }

  lemma HighestLosesNothing(y: In6, bits: bv8, i: bv8)
    requires bits <= 128 && i < 128 && Bit6(y, i)
    ensures Bit6(Highest(y, bits), i)
  {
  }

  lemma EndsPastPrefix(y: In6, bits: bv8, i: bv8)
    requires bits <= i < 128
    ensures !BitsOf(Lowest(y, bits))(i) && BitsOf(Highest(y, bits))(i)
  {
    LowestCleared(y, bits, i);
    HighestSet(y, bits, i);
  }

  lemma EndsAtOne(y: In6, bits: bv8, i: bv8)
    requires i < bits <= 128 && BitsOf(y)(i)
    ensures BitsOf(Lowest(y, bits))(i) && BitsOf(Highest(y, bits))(i)
  {
    LowestKept(y, bits, i);
    HighestLosesNothing(y, bits, i);
  }

  lemma EndsAtZero(y: In6, bits: bv8, i: bv8)
    requires i < bits <= 128 && !BitsOf(y)(i)
    ensures !BitsOf(Lowest(y, bits))(i) && !BitsOf(Highest(y, bits))(i)
  {
    LowestAddsNothing(y, bits, i);
    HighestKept(y, bits, i);
  }

  lemma EndsOfBlock(y: In6, bits: bv8)
    requires bits <= 128
    ensures Ends(BitsOf(Lowest(y, bits)), BitsOf(Highest(y, bits)), BitsOf(y), bits)
  {
    forall i: bv8 | i < 128
      ensures BitsOf(Lowest(y, bits))(i) == (i < bits && BitsOf(y)(i))
      ensures BitsOf(Highest(y, bits))(i) == (i >= bits || BitsOf(y)(i))
    {
      if i >= bits {
        EndsPastPrefix(y, bits, i);
      } else if BitsOf(y)(i) {
        EndsAtOne(y, bits, i);
      } else {
        EndsAtZero(y, bits, i);
      }
    }
  }

  /** IPv6: the addresses matched are one interval, as a "lo-hi" range would give it. */
  lemma Match6IsInterval(x: In6, y: In6, bits: bv8)
    requires bits <= 128
    ensures cidr6_match(Stored(x), Stored(y), bits)
       <==> AtMost(BitsOf(Lowest(y, bits)), BitsOf(x), 0) && AtMost(BitsOf(x), BitsOf(Highest(y, bits)), 0)
  {
    EndsOfBlock(y, bits);
    Match6IsPrefix(x, y, bits);
    PrefixIsInterval(x, y, BitsOf(Lowest(y, bits)), BitsOf(Highest(y, bits)), bits);
  }

  lemma PrefixIsInterval(x: In6, y: In6, lo: bv8 -> bool, hi: bv8 -> bool, bits: bv8)
    requires bits <= 128 && Ends(lo, hi, BitsOf(y), bits)
    ensures SameTop6(x, y, bits) <==> AtMost(lo, BitsOf(x), 0) && AtMost(BitsOf(x), hi, 0)
  {
    TopBitsAgree(x, y, bits);
    IntervalOfBits(BitsOf(x), BitsOf(y), lo, hi, bits, 0);
  }

  lemma {:induction false} SameTop6Symmetric(x: In6, y: In6, bits: bv8)
    requires bits <= 128
    ensures SameTop6(x, y, bits) <==> SameTop6(y, x, bits)
    decreases bits
  {
    if bits != 0 {
      SameTop6Symmetric(x, y, bits - 1);
    }
  }

  lemma Match6EitherWay(x: In6, y: In6, bits: bv8)
    requires bits <= 128
    ensures cidr6_match(Stored(x), Stored(y), bits) <==> cidr6_match(Stored(y), Stored(x), bits)
  {
    Match6IsPrefix(x, y, bits);
    Match6IsPrefix(y, x, bits);
    SameTop6Symmetric(x, y, bits);
  }

  predicate InSpan6(target: In6, lo: In6, hi: In6)
  {
    AtMost(BitsOf(lo), BitsOf(target), 0) && AtMost(BitsOf(target), BitsOf(hi), 0)
  }

  predicate InPrefix6(target: In6, net: In6, bits: bv8)
    requires bits <= 128
  {
    cidr6_match(Stored(net), Stored(target), bits)
  }

  /** IPv6: a prefix means the same as the span from its first to its last address. */
  lemma Prefix6IsSpan(target: In6, net: In6, bits: bv8)
    requires bits <= 128
    ensures InPrefix6(target, net, bits) <==> InSpan6(target, Lowest(net, bits), Highest(net, bits))
  {
    Match6EitherWay(net, target, bits);
    Match6IsInterval(target, net, bits);
  }

  /** IPv6: two blocks are nested or disjoint. */
  lemma NestedOrDisjoint6(x: In6, y: In6, bits: bv8, z: In6, more: bv8)
    requires bits <= more <= 128 && cidr6_match(Stored(x), Stored(z), more)
    ensures cidr6_match(Stored(x), Stored(y), bits) <==> cidr6_match(Stored(z), Stored(y), bits)
  {
    Match6IsPrefix(x, z, more);
    Match6IsPrefix(x, y, bits);
    Match6IsPrefix(z, y, bits);
    TopBitsAgree(x, z, more);
    TopBitsAgree(x, y, bits);
    TopBitsAgree(z, y, bits);
    AgreeShorter(BitsOf(x), BitsOf(z), bits, more);
    AgreeChain(BitsOf(x), BitsOf(y), BitsOf(z), 0, bits);
  }

  lemma {:induction false} AgreeShorter(f: bv8 -> bool, g: bv8 -> bool, bits: bv8, more: bv8)
    requires bits <= more && Agree(f, g, 0, more)
    ensures Agree(f, g, 0, bits)
    decreases more
  {
    if bits < more {
      AgreeSnoc(f, g, 0, more);
      AgreeShorter(f, g, bits, more - 1);
    }
  }

  lemma {:induction false} AgreeChain(x: bv8 -> bool, y: bv8 -> bool, z: bv8 -> bool, i: bv8, bits: bv8)
    requires i <= bits && Agree(x, z, i, bits)
    ensures Agree(x, y, i, bits) <==> Agree(z, y, i, bits)
    decreases bits - i
  {
    if i < bits {
      AgreeChain(x, y, z, i + 1, bits);
    }
  }

  // ---- Where the bits are -----------------------------------------------------------------------

  /** The first bit is the highest of the first word, the last bit the lowest of the last word. */
  lemma BitPlaces(x: bv32)
    ensures htonl(0x11223344) == 0x44332211
    ensures Bit(x, 0) <==> x >= 0x8000_0000
    ensures Bit(x, 31) <==> x & 1 == 1
  {
  }

  lemma BitPlaces6(a: In6)
    ensures Bit6(a, 0) <==> a.w0 >= 0x8000_0000
    ensures Bit6(a, 32) <==> a.w1 >= 0x8000_0000
    ensures Bit6(a, 64) <==> a.w2 >= 0x8000_0000
    ensures Bit6(a, 96) <==> a.w3 >= 0x8000_0000
    ensures Bit6(a, 127) <==> a.w3 & 1 == 1
  {
    BitPlaces(a.w0);
    BitPlaces(a.w1);
    BitPlaces(a.w2);
    BitPlaces(a.w3);
  }
}
