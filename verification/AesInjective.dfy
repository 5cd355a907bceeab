/** AES-128 encryption maps different blocks to different blocks, under every key. Facts about bits are
    stated on values already computed, so that each is a statement about bit-vectors alone. */
module AesInjective {
  import opened Aes
  import opened AesTables
  import opened BlockCipher

  // ------------------------------------------------------------- doubling is linear

  predicate Doubles(a: bv8, x: bv8) { x == (a << 1) ^ (if a & 0x80 != 0 then 0x1b else 0) }

  predicate Sums(a: bv8, b: bv8, c: bv8) { c == a ^ b }

  lemma DoublesSum(a: bv8, b: bv8, c: bv8, x: bv8, y: bv8, z: bv8)
    requires Doubles(a, x) && Doubles(b, y) && Doubles(c, z) && Sums(a, b, c)
    ensures Sums(x, y, z)
  {
  }

  lemma XtimeDoubles(b: bv8)
    ensures Doubles(b, Xtime(b))
  {
  }

  lemma SumsXor(a: bv8, b: bv8, c: bv8)
    ensures Sums(a, b, c) <==> c == Xor(a, b)
  {
  }

  lemma XtimeXor(a: bv8, b: bv8)
    ensures Xtime(Xor(a, b)) == Xor(Xtime(a), Xtime(b))
  {
    hide Xtime, Xor, Doubles, Sums;
    var c := Xor(a, b);
    XtimeDoubles(a);
    XtimeDoubles(b);
    XtimeDoubles(c);
    SumsXor(a, b, c);
    DoublesSum(a, b, c, Xtime(a), Xtime(b), Xtime(c));
    SumsXor(Xtime(a), Xtime(b), Xtime(c));
  }

  lemma XtimeSum4(a: bv8, b: bv8, c: bv8, d: bv8)
    ensures Xtime(Sum4(a, b, c, d)) == Sum4(Xtime(a), Xtime(b), Xtime(c), Xtime(d))
  {
    hide Xtime, Xor;
    XtimeXor(a, b);
    XtimeXor(Xor(a, b), c);
    XtimeXor(Xor(Xor(a, b), c), d);
  }

  // ------------------------------------------------------------- MixColumns

  /** One row of MixColumns; the others are the same of the rotated column. */
  function MixRow(a: bv8, b: bv8, c: bv8, d: bv8): bv8 { Sum4(Xtime(a), Times3(b), c, d) }

  lemma XorSelf(a: bv8)
    ensures Xor(a, a) == 0 && Xor(a, 0) == a && Xor(0, a) == a
  {
  }

  /** The inner two of four change places. */
  lemma Interchange(a: bv8, b: bv8, c: bv8, d: bv8)
    ensures Xor(Xor(a, b), Xor(c, d)) == Xor(Xor(a, c), Xor(b, d))
  {
    hide Xor;
    XorAssoc(a, b, Xor(c, d));
    XorAssoc(b, c, d);
    XorComm(b, c);
    XorAssoc(c, b, d);
    XorAssoc(a, c, Xor(b, d));
  }

  lemma Rotated(a: bv8, b: bv8, c: bv8, d: bv8)
    ensures Sum4(a, b, c, d) == Sum4(b, c, d, a)
  {
    hide Xor;
    XorComm(Xor(Xor(b, c), d), a);
    XorAssoc(a, Xor(b, c), d);
    XorAssoc(a, b, c);
  }

  lemma MixIs(c: Col)
    ensures MixColumn(c) == Col(MixRow(c.r0, c.r1, c.r2, c.r3), MixRow(c.r1, c.r2, c.r3, c.r0),
                                MixRow(c.r2, c.r3, c.r0, c.r1), MixRow(c.r3, c.r0, c.r1, c.r2))
  {
    hide Sum4, Xtime, Times3;
    Rotated(c.r0, Xtime(c.r1), Times3(c.r2), c.r3);
    Rotated(c.r0, c.r1, Xtime(c.r2), Times3(c.r3));
    Rotated(c.r1, Xtime(c.r2), Times3(c.r3), c.r0);
    Rotated(Xtime(c.r3), Times3(c.r0), c.r1, c.r2);
  }

  /** What a row is after MixColumns twice. */
  function Quarter(a: bv8, c: bv8): bv8 { Xor(Xor(Xtime(Xtime(a)), a), Xtime(Xtime(c))) }

  predicate AllSum(a: bv8, b: bv8, c: bv8, d: bv8, x: bv8) { x == a ^ b ^ c ^ d }

  lemma Sum4Is(a: bv8, b: bv8, c: bv8, d: bv8)
    ensures AllSum(a, b, c, d, Sum4(a, b, c, d))
  {
    hide Xor, Sums, AllSum;
    SumsXor(a, b, Xor(a, b));
    SumsXor(Xor(a, b), c, Xor(Xor(a, b), c));
    SumsXor(Xor(Xor(a, b), c), d, Sum4(a, b, c, d));
    BitsSum4(a, b, c, d, Xor(a, b), Xor(Xor(a, b), c), Sum4(a, b, c, d));
  }

  lemma BitsSum4(a: bv8, b: bv8, c: bv8, d: bv8, x: bv8, y: bv8, z: bv8)
    requires Sums(a, b, x) && Sums(x, c, y) && Sums(y, d, z)
    ensures AllSum(a, b, c, d, z)
  {
  }

  /** Doubled and twice doubled bytes cancel: the second row with its double, and the last two rows. */
  lemma BitsInner(a: bv8, b: bv8, c: bv8, d: bv8, a2: bv8, b2: bv8, c2: bv8, d2: bv8, b4: bv8, c4: bv8,
                  q: bv8, r: bv8, y: bv8, z: bv8, t: bv8)
    requires Sums(c4, c2, q) && AllSum(b4, q, d2, a2, y) && Sums(c2, c, r) && AllSum(b2, r, d, a, z) && Sums(y, z, t)
    ensures t == (b4 ^ c4 ^ d2 ^ a2) ^ (b2 ^ c ^ d ^ a)
  {
  }

  lemma BitsOuter(a: bv8, b: bv8, c: bv8, d: bv8, a2: bv8, c2: bv8, d2: bv8, q: bv8, r: bv8, v: bv8, w: bv8)
    requires Sums(d2, d, q) && AllSum(c2, q, a, b, v) && Sums(a2, a, r) && AllSum(d2, r, b, c, w)
    ensures v ^ w == c2 ^ d ^ a2 ^ c
  {
  }

  lemma BitsAll(a: bv8, c: bv8, d: bv8, a2: bv8, b2: bv8, c2: bv8, d2: bv8, a4: bv8, b4: bv8, c4: bv8,
                p: bv8, x: bv8, t: bv8, v: bv8, w: bv8, o: bv8)
    requires Sums(b4, b2, p) && AllSum(a4, p, c2, d2, x) && t == (b4 ^ c4 ^ d2 ^ a2) ^ (b2 ^ c ^ d ^ a)
    requires v ^ w == c2 ^ d ^ a2 ^ c && AllSum(x, t, v, w, o)
    ensures o == (a4 ^ a) ^ c4
  {
  }

  lemma UnfoldXor(a: bv8, b: bv8)
    ensures Xor(a, b) == a ^ b
  {
  }

  lemma RowCancels(a: bv8, b: bv8, c: bv8, d: bv8, a2: bv8, b2: bv8, c2: bv8, d2: bv8, a4: bv8, b4: bv8, c4: bv8)
    ensures Sum4(Sum4(a4, Xor(b4, b2), c2, d2),
                 Xor(Sum4(b4, Xor(c4, c2), d2, a2), Sum4(b2, Xor(c2, c), d, a)),
                 Sum4(c2, Xor(d2, d), a, b), Sum4(d2, Xor(a2, a), b, c))
            == Xor(Xor(a4, a), c4)
  {
    hide Sum4, Xor, AllSum, Sums;
    var x, y, z := Sum4(a4, Xor(b4, b2), c2, d2), Sum4(b4, Xor(c4, c2), d2, a2), Sum4(b2, Xor(c2, c), d, a);
    var v, w, t := Sum4(c2, Xor(d2, d), a, b), Sum4(d2, Xor(a2, a), b, c), Xor(y, z);
    SumsXor(c4, c2, Xor(c4, c2));
    SumsXor(c2, c, Xor(c2, c));
    SumsXor(y, z, t);
    Sum4Is(b4, Xor(c4, c2), d2, a2);
    Sum4Is(b2, Xor(c2, c), d, a);
    BitsInner(a, b, c, d, a2, b2, c2, d2, b4, c4, Xor(c4, c2), Xor(c2, c), y, z, t);
    SumsXor(d2, d, Xor(d2, d));
    SumsXor(a2, a, Xor(a2, a));
    Sum4Is(c2, Xor(d2, d), a, b);
    Sum4Is(d2, Xor(a2, a), b, c);
    BitsOuter(a, b, c, d, a2, c2, d2, Xor(d2, d), Xor(a2, a), v, w);
    SumsXor(b4, b2, Xor(b4, b2));
    Sum4Is(a4, Xor(b4, b2), c2, d2);
    Sum4Is(x, t, v, w);
    BitsAll(a, c, d, a2, b2, c2, d2, a4, b4, c4, Xor(b4, b2), x, t, v, w, Sum4(x, t, v, w));
    UnfoldXor(a4, a);
    UnfoldXor(Xor(a4, a), c4);
  }

  lemma MixRowTwice(a: bv8, b: bv8, c: bv8, d: bv8)
    ensures MixRow(MixRow(a, b, c, d), MixRow(b, c, d, a), MixRow(c, d, a, b), MixRow(d, a, b, c)) == Quarter(a, c)
  {
    hide Xtime, Xor, Sum4;
    XtimeSum4(Xtime(a), Times3(b), c, d);
    XtimeXor(Xtime(b), b);
    XtimeSum4(Xtime(b), Times3(c), d, a);
    XtimeXor(Xtime(c), c);
    RowCancels(a, b, c, d, Xtime(a), Xtime(b), Xtime(c), Xtime(d), Xtime(Xtime(a)), Xtime(Xtime(b)), Xtime(Xtime(c)));
  }

  lemma QuarterCancels(a: bv8, c: bv8, a4: bv8, c4: bv8, a16: bv8, c16: bv8)
    ensures Xor(Xor(Xor(Xor(a16, a4), c16), Xor(Xor(a4, a), c4)), Xor(Xor(c16, c4), a16)) == a
  {
  }

  lemma QuarterTwice(a: bv8, c: bv8)
    ensures Quarter(Quarter(a, c), Quarter(c, a)) == a
  {
    hide Xtime, Xor;
    var a4, c4 := Xtime(Xtime(a)), Xtime(Xtime(c));
    FourTimes(a4, a, c4);
    FourTimes(c4, c, a4);
    QuarterCancels(a, c, a4, c4, Xtime(Xtime(a4)), Xtime(Xtime(c4)));
  }

  lemma FourTimes(x: bv8, y: bv8, z: bv8)
    ensures Xtime(Xtime(Xor(Xor(x, y), z)))
            == Xor(Xor(Xtime(Xtime(x)), Xtime(Xtime(y))), Xtime(Xtime(z)))
  {
    hide Xtime, Xor;
    XtimeXor(Xor(x, y), z);
    XtimeXor(x, y);
    XtimeXor(Xor(Xtime(x), Xtime(y)), Xtime(z));
    XtimeXor(Xtime(x), Xtime(y));
  }

  lemma MixTwice(c: Col)
    ensures MixColumn(MixColumn(c))
            == Col(Quarter(c.r0, c.r2), Quarter(c.r1, c.r3), Quarter(c.r2, c.r0), Quarter(c.r3, c.r1))
  {
    hide MixColumn, MixRow, Quarter;
    MixIs(c);
    MixIs(MixColumn(c));
    MixRowTwice(c.r0, c.r1, c.r2, c.r3);
    MixRowTwice(c.r1, c.r2, c.r3, c.r0);
    MixRowTwice(c.r2, c.r3, c.r0, c.r1);
    MixRowTwice(c.r3, c.r0, c.r1, c.r2);
  }

  /** MixColumns four times is the identity. */
  lemma MixFourTimes(c: Col)
    ensures MixColumn(MixColumn(MixColumn(MixColumn(c)))) == c
  {
    hide MixColumn, Quarter;
    MixTwice(c);
    MixTwice(MixColumn(MixColumn(c)));
    QuarterTwice(c.r0, c.r2);
    QuarterTwice(c.r1, c.r3);
    QuarterTwice(c.r2, c.r0);
    QuarterTwice(c.r3, c.r1);
  }

  // ------------------------------------------------------------- the S-box

  /** a and its seven successive doubles. */
  datatype Powers = Powers(a: bv8, a1: bv8, a2: bv8, a3: bv8, a4: bv8, a5: bv8, a6: bv8, a7: bv8)

  predicate Chain(a: bv8, a1: bv8, a2: bv8, a3: bv8, a4: bv8, a5: bv8, a6: bv8, a7: bv8) {
    && Doubles(a, a1) && Doubles(a1, a2) && Doubles(a2, a3) && Doubles(a3, a4)
    && Doubles(a4, a5) && Doubles(a5, a6) && Doubles(a6, a7)
  }

  predicate Product(a: bv8, a1: bv8, a2: bv8, a3: bv8, a4: bv8, a5: bv8, a6: bv8, a7: bv8, b: bv8, x: bv8) {
    x == (if b & 0x01 != 0 then a else 0) ^ (if b & 0x02 != 0 then a1 else 0)
         ^ (if b & 0x04 != 0 then a2 else 0) ^ (if b & 0x08 != 0 then a3 else 0)
         ^ (if b & 0x10 != 0 then a4 else 0) ^ (if b & 0x20 != 0 then a5 else 0)
         ^ (if b & 0x40 != 0 then a6 else 0) ^ (if b & 0x80 != 0 then a7 else 0)
  }

  predicate IsChain(p: Powers) { Chain(p.a, p.a1, p.a2, p.a3, p.a4, p.a5, p.a6, p.a7) }

  predicate IsProduct(p: Powers, b: bv8, x: bv8) { Product(p.a, p.a1, p.a2, p.a3, p.a4, p.a5, p.a6, p.a7, b, x) }

  function PowersOf(a: bv8): Powers {
    var a1 := Xtime(a);
    var a2 := Xtime(a1);
    var a3 := Xtime(a2);
    var a4 := Xtime(a3);
    var a5 := Xtime(a4);
    var a6 := Xtime(a5);
    Powers(a, a1, a2, a3, a4, a5, a6, Xtime(a6))
  }

  lemma PowersChain(a: bv8)
    ensures IsChain(PowersOf(a))
  {
    hide Doubles, Xtime;
    var p := PowersOf(a);
    XtimeDoubles(p.a);
    XtimeDoubles(p.a1);
    XtimeDoubles(p.a2);
    XtimeDoubles(p.a3);
    XtimeDoubles(p.a4);
    XtimeDoubles(p.a5);
    XtimeDoubles(p.a6);
  }

  /** The partial products added up, from the lowest bit of b. */
  function Dot(p: Powers, b: bv8): bv8 {
    var x1 := Xor(Term(p.a, b & 0x01), Term(p.a1, b & 0x02));
    var x2 := Xor(x1, Term(p.a2, b & 0x04));
    var x3 := Xor(x2, Term(p.a3, b & 0x08));
    var x4 := Xor(x3, Term(p.a4, b & 0x10));
    var x5 := Xor(x4, Term(p.a5, b & 0x20));
    var x6 := Xor(x5, Term(p.a6, b & 0x40));
    Xor(x6, Term(p.a7, b & 0x80))
  }

  predicate Sums8(t0: bv8, t1: bv8, t2: bv8, t3: bv8, t4: bv8, t5: bv8, t6: bv8, t7: bv8, x: bv8) {
    x == t0 ^ t1 ^ t2 ^ t3 ^ t4 ^ t5 ^ t6 ^ t7
  }

  lemma BitsSum8(t0: bv8, t1: bv8, t2: bv8, t3: bv8, t4: bv8, t5: bv8, t6: bv8, t7: bv8,
                 x1: bv8, x2: bv8, x3: bv8, x4: bv8, x5: bv8, x6: bv8, x7: bv8)
    requires Sums(t0, t1, x1) && Sums(x1, t2, x2) && Sums(x2, t3, x3) && Sums(x3, t4, x4)
    requires Sums(x4, t5, x5) && Sums(x5, t6, x6) && Sums(x6, t7, x7)
    ensures Sums8(t0, t1, t2, t3, t4, t5, t6, t7, x7)
  {
  }

  lemma Sums8Is(t0: bv8, t1: bv8, t2: bv8, t3: bv8, t4: bv8, t5: bv8, t6: bv8, t7: bv8, x: bv8)
    ensures Sums8(t0, t1, t2, t3, t4, t5, t6, t7, x) <==> x == t0 ^ t1 ^ t2 ^ t3 ^ t4 ^ t5 ^ t6 ^ t7
  {
  }

  lemma Sums8Only(t0: bv8, t1: bv8, t2: bv8, t3: bv8, t4: bv8, t5: bv8, t6: bv8, t7: bv8, x: bv8, y: bv8)
    requires Sums8(t0, t1, t2, t3, t4, t5, t6, t7, x) && Sums8(t0, t1, t2, t3, t4, t5, t6, t7, y)
    ensures x == y
  {
  }

  lemma DotSums(p: Powers, b: bv8)
    ensures Sums8(Term(p.a, b & 0x01), Term(p.a1, b & 0x02), Term(p.a2, b & 0x04), Term(p.a3, b & 0x08),
                  Term(p.a4, b & 0x10), Term(p.a5, b & 0x20), Term(p.a6, b & 0x40), Term(p.a7, b & 0x80), Dot(p, b))
  {
    hide Term, Xor, Sums, Sums8;
    var t0, t1, t2, t3 := Term(p.a, b & 0x01), Term(p.a1, b & 0x02), Term(p.a2, b & 0x04), Term(p.a3, b & 0x08);
    var t4, t5, t6, t7 := Term(p.a4, b & 0x10), Term(p.a5, b & 0x20), Term(p.a6, b & 0x40), Term(p.a7, b & 0x80);
    var x1 := Xor(t0, t1);
    var x2 := Xor(x1, t2);
    var x3 := Xor(x2, t3);
    var x4 := Xor(x3, t4);
    var x5 := Xor(x4, t5);
    var x6 := Xor(x5, t6);
    SumsXor(t0, t1, x1);
    SumsXor(x1, t2, x2);
    SumsXor(x2, t3, x3);
    SumsXor(x3, t4, x4);
    SumsXor(x4, t5, x5);
    SumsXor(x5, t6, x6);
    SumsXor(x6, t7, Xor(x6, t7));
    BitsSum8(t0, t1, t2, t3, t4, t5, t6, t7, x1, x2, x3, x4, x5, x6, Xor(x6, t7));
  }

  lemma MulSums(a: bv8, b: bv8)
    ensures var p := PowersOf(a);
            Sums8(Term(p.a, b & 0x01), Term(p.a1, b & 0x02), Term(p.a2, b & 0x04), Term(p.a3, b & 0x08),
                  Term(p.a4, b & 0x10), Term(p.a5, b & 0x20), Term(p.a6, b & 0x40), Term(p.a7, b & 0x80), GfMul(a, b))
  {
    hide Xtime, Term, Sums8;
    var p := PowersOf(a);
    Sums8Is(Term(p.a, b & 0x01), Term(p.a1, b & 0x02), Term(p.a2, b & 0x04), Term(p.a3, b & 0x08),
            Term(p.a4, b & 0x10), Term(p.a5, b & 0x20), Term(p.a6, b & 0x40), Term(p.a7, b & 0x80), GfMul(a, b));
  }

  lemma MulIsDot(a: bv8, b: bv8)
    ensures GfMul(a, b) == Dot(PowersOf(a), b)
  {
    hide GfMul, Dot, PowersOf, Term, Sums8;
    var p := PowersOf(a);
    MulSums(a, b);
    DotSums(p, b);
    Sums8Only(Term(p.a, b & 0x01), Term(p.a1, b & 0x02), Term(p.a2, b & 0x04), Term(p.a3, b & 0x08),
              Term(p.a4, b & 0x10), Term(p.a5, b & 0x20), Term(p.a6, b & 0x40), Term(p.a7, b & 0x80),
              GfMul(a, b), Dot(p, b));
  }

  predicate Picks(a: bv8, bit: bv8, t: bv8) { t == if bit != 0 then a else 0 }

  lemma TermPicks(a: bv8, bit: bv8)
    ensures Picks(a, bit, Term(a, bit))
  {
  }

  lemma BitsProduct(a: bv8, a1: bv8, a2: bv8, a3: bv8, a4: bv8, a5: bv8, a6: bv8, a7: bv8, b: bv8,
                    t0: bv8, t1: bv8, t2: bv8, t3: bv8, t4: bv8, t5: bv8, t6: bv8, t7: bv8, x: bv8)
    requires Picks(a, b & 0x01, t0) && Picks(a1, b & 0x02, t1) && Picks(a2, b & 0x04, t2) && Picks(a3, b & 0x08, t3)
    requires Picks(a4, b & 0x10, t4) && Picks(a5, b & 0x20, t5) && Picks(a6, b & 0x40, t6) && Picks(a7, b & 0x80, t7)
    requires Sums8(t0, t1, t2, t3, t4, t5, t6, t7, x)
    ensures Product(a, a1, a2, a3, a4, a5, a6, a7, b, x)
  {
  }

  lemma DotIsProduct(p: Powers, b: bv8)
    ensures IsProduct(p, b, Dot(p, b))
  {
    hide Term, Dot, Product, Picks, Sums8;
    DotSums(p, b);
    TermPicks(p.a, b & 0x01);
    TermPicks(p.a1, b & 0x02);
    TermPicks(p.a2, b & 0x04);
    TermPicks(p.a3, b & 0x08);
    TermPicks(p.a4, b & 0x10);
    TermPicks(p.a5, b & 0x20);
    TermPicks(p.a6, b & 0x40);
    TermPicks(p.a7, b & 0x80);
    BitsProduct(p.a, p.a1, p.a2, p.a3, p.a4, p.a5, p.a6, p.a7, b,
                Term(p.a, b & 0x01), Term(p.a1, b & 0x02), Term(p.a2, b & 0x04), Term(p.a3, b & 0x08),
                Term(p.a4, b & 0x10), Term(p.a5, b & 0x20), Term(p.a6, b & 0x40), Term(p.a7, b & 0x80), Dot(p, b));
  }

  lemma NoZeroDivisors(a: bv8, a1: bv8, a2: bv8, a3: bv8, a4: bv8, a5: bv8, a6: bv8, a7: bv8, b: bv8)
    requires Chain(a, a1, a2, a3, a4, a5, a6, a7) && Product(a, a1, a2, a3, a4, a5, a6, a7, b, 0)
    ensures a == 0 || b == 0
  {
  }

  function SumPowers(p: Powers, q: Powers): Powers {
    Powers(Xor(p.a, q.a), Xor(p.a1, q.a1), Xor(p.a2, q.a2), Xor(p.a3, q.a3),
           Xor(p.a4, q.a4), Xor(p.a5, q.a5), Xor(p.a6, q.a6), Xor(p.a7, q.a7))
  }

  lemma TermXor(a: bv8, c: bv8, bit: bv8)
    ensures Term(Xor(a, c), bit) == Xor(Term(a, bit), Term(c, bit))
  {
    hide Xor;
    XorSelf(0);
  }

  lemma DotXor(p: Powers, q: Powers, b: bv8)
    ensures Dot(SumPowers(p, q), b) == Xor(Dot(p, b), Dot(q, b))
  {
    hide Term, Xor;
    var x1, y1 := Xor(Term(p.a, b & 0x01), Term(p.a1, b & 0x02)), Xor(Term(q.a, b & 0x01), Term(q.a1, b & 0x02));
    var x2, y2 := Xor(x1, Term(p.a2, b & 0x04)), Xor(y1, Term(q.a2, b & 0x04));
    var x3, y3 := Xor(x2, Term(p.a3, b & 0x08)), Xor(y2, Term(q.a3, b & 0x08));
    var x4, y4 := Xor(x3, Term(p.a4, b & 0x10)), Xor(y3, Term(q.a4, b & 0x10));
    var x5, y5 := Xor(x4, Term(p.a5, b & 0x20)), Xor(y4, Term(q.a5, b & 0x20));
    var x6, y6 := Xor(x5, Term(p.a6, b & 0x40)), Xor(y5, Term(q.a6, b & 0x40));
    TermXor(p.a, q.a, b & 0x01);
    TermXor(p.a1, q.a1, b & 0x02);
    TermXor(p.a2, q.a2, b & 0x04);
    TermXor(p.a3, q.a3, b & 0x08);
    TermXor(p.a4, q.a4, b & 0x10);
    TermXor(p.a5, q.a5, b & 0x20);
    TermXor(p.a6, q.a6, b & 0x40);
    TermXor(p.a7, q.a7, b & 0x80);
    Interchange(Term(p.a, b & 0x01), Term(p.a1, b & 0x02), Term(q.a, b & 0x01), Term(q.a1, b & 0x02));
    Interchange(x1, Term(p.a2, b & 0x04), y1, Term(q.a2, b & 0x04));
    Interchange(x2, Term(p.a3, b & 0x08), y2, Term(q.a3, b & 0x08));
    Interchange(x3, Term(p.a4, b & 0x10), y3, Term(q.a4, b & 0x10));
    Interchange(x4, Term(p.a5, b & 0x20), y4, Term(q.a5, b & 0x20));
    Interchange(x5, Term(p.a6, b & 0x40), y5, Term(q.a6, b & 0x40));
    Interchange(x6, Term(p.a7, b & 0x80), y6, Term(q.a7, b & 0x80));
  }

  lemma PowersSum(a: bv8, c: bv8)
    ensures PowersOf(Xor(a, c)) == SumPowers(PowersOf(a), PowersOf(c))
  {
    hide Xtime, Xor;
    var p, q := PowersOf(a), PowersOf(c);
    XtimeXor(p.a, q.a);
    XtimeXor(p.a1, q.a1);
    XtimeXor(p.a2, q.a2);
    XtimeXor(p.a3, q.a3);
    XtimeXor(p.a4, q.a4);
    XtimeXor(p.a5, q.a5);
    XtimeXor(p.a6, q.a6);
  }

  lemma XorZeroSame(a: bv8, c: bv8)
    ensures Xor(a, c) == 0 ==> a == c
  {
  }

  /** A product with something other than zero determines the factor. */
  lemma Cancels(a: bv8, c: bv8, b: bv8)
    requires GfMul(a, b) == GfMul(c, b) && b != 0
    ensures a == c
  {
    hide GfMul, Xor, Dot, Chain, Product, PowersOf, SumPowers;
    MulIsDot(a, b);
    MulIsDot(c, b);
    DotXor(PowersOf(a), PowersOf(c), b);
    XorSelf(Dot(PowersOf(a), b));
    PowersSum(a, c);
    PowersChain(Xor(a, c));
    var p := PowersOf(Xor(a, c));
    DotIsProduct(p, b);
    NoZeroDivisors(p.a, p.a1, p.a2, p.a3, p.a4, p.a5, p.a6, p.a7, b);
    FirstPower(Xor(a, c));
    XorZeroSame(a, c);
  }

  lemma FirstPower(a: bv8)
    ensures PowersOf(a).a == a
  {
    hide Xtime;
  }

  lemma MulZero(a: bv8)
    ensures GfMul(a, 0) == 0
  {
    hide Xtime;
  }

  lemma SboxOkIs(x: bv8)
    requires SboxOk(x)
    ensures var y := InvAffine(SboxTable(x)); if x == 0 then y == 0 else GfMul(x, y) == 1
  {
    hide SboxTable, GfMul, InvAffine;
  }

  lemma SboxInjective(x: bv8, y: bv8)
    requires SboxTable(x) == SboxTable(y)
    ensures x == y
  {
    hide SboxTable, SboxOk, TableOk, GfMul, InvAffine;
    TablesOk(x);
    TablesOk(y);
    SboxOkIs(x);
    SboxOkIs(y);
    var i := InvAffine(SboxTable(x));
    MulZero(x);
    MulZero(y);
    if x != 0 && y != 0 {
      Cancels(x, y, i);
    }
  }

  // ------------------------------------------------------------- the cipher

  lemma XorColInjective(a: Col, b: Col, k: Col)
    requires XorCol(a, k) == XorCol(b, k)
    ensures a == b
  {
    hide Xor;
    XorTwice(a.r0, k.r0);
    XorTwice(a.r1, k.r1);
    XorTwice(a.r2, k.r2);
    XorTwice(a.r3, k.r3);
    XorTwice(b.r0, k.r0);
    XorTwice(b.r1, k.r1);
    XorTwice(b.r2, k.r2);
    XorTwice(b.r3, k.r3);
  }

  lemma AddRoundKeyInjective(a: State, b: State, k: State)
    requires AddRoundKey(a, k) == AddRoundKey(b, k)
    ensures a == b
  {
    hide XorCol;
    XorColInjective(a.c0, b.c0, k.c0);
    XorColInjective(a.c1, b.c1, k.c1);
    XorColInjective(a.c2, b.c2, k.c2);
    XorColInjective(a.c3, b.c3, k.c3);
  }

  lemma SubColInjective(a: Col, b: Col)
    requires SubCol(a) == SubCol(b)
    ensures a == b
  {
    hide SboxTable;
    SboxInjective(a.r0, b.r0);
    SboxInjective(a.r1, b.r1);
    SboxInjective(a.r2, b.r2);
    SboxInjective(a.r3, b.r3);
  }

  lemma SubShiftInjective(a: State, b: State)
    requires ShiftRows(SubBytes(a)) == ShiftRows(SubBytes(b))
    ensures a == b
  {
    hide SubCol;
    SubColInjective(a.c0, b.c0);
    SubColInjective(a.c1, b.c1);
    SubColInjective(a.c2, b.c2);
    SubColInjective(a.c3, b.c3);
  }

  lemma MixColumnsInjective(a: State, b: State)
    requires MixColumns(a) == MixColumns(b)
    ensures a == b
  {
    hide MixColumn;
    MixFourTimes(a.c0);
    MixFourTimes(a.c1);
    MixFourTimes(a.c2);
    MixFourTimes(a.c3);
    MixFourTimes(b.c0);
    MixFourTimes(b.c1);
    MixFourTimes(b.c2);
    MixFourTimes(b.c3);
  }

  lemma {:induction false} RoundsInjective(k: State, a: State, b: State, n: nat)
    requires Rounds(k, a, n) == Rounds(k, b, n)
    ensures a == b
  {
    hide AddRoundKey, MixColumns, ShiftRows, SubBytes, RoundKey;
    if n == 0 {
      AddRoundKeyInjective(a, b, k);
    } else {
      var x, y := Rounds(k, a, n - 1), Rounds(k, b, n - 1);
      AddRoundKeyInjective(MixColumns(ShiftRows(SubBytes(x))), MixColumns(ShiftRows(SubBytes(y))), RoundKey(k, n));
      MixColumnsInjective(ShiftRows(SubBytes(x)), ShiftRows(SubBytes(y)));
      SubShiftInjective(x, y);
      RoundsInjective(k, a, b, n - 1);
    }
  }

  lemma CipherInjective(k: State, a: State, b: State)
    requires Cipher(k, a) == Cipher(k, b)
    ensures a == b
  {
    hide AddRoundKey, ShiftRows, SubBytes, RoundKey, Rounds;
    var x, y := Rounds(k, a, 9), Rounds(k, b, 9);
    AddRoundKeyInjective(ShiftRows(SubBytes(x)), ShiftRows(SubBytes(y)), RoundKey(k, 10));
    SubShiftInjective(x, y);
    RoundsInjective(k, a, b, 9);
  }

  /** Different blocks have different ciphertexts, under every key. */
  lemma Aes128Injective(k: State)
    ensures Injective(Aes128(k))
  {
    hide Cipher, FromBytes, ToBytes;
    forall a: Bytes, b: Bytes | |a| == |b| == 16 && Aes128(k)(a) == Aes128(k)(b)
      ensures a == b
    {
      BytesRoundTrip(a, Cipher(k, FromBytes(a)));
      BytesRoundTrip(b, Cipher(k, FromBytes(b)));
      CipherInjective(k, FromBytes(a), FromBytes(b));
    }
  }
}
