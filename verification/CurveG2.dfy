/**
  The check that a public key lies on the twist of the curve BN254, over the
  quadratic extension of the base field in which i squared is minus one. It works on
  256-bit words and leaves sums unreduced.
 */
module CurveG2 {
  import opened Bytes
  import opened Modular

  const N: word := 21888242871839275222246405745257275088696311157297823662689037894645226208583

  // ---------- the extension field ----------

  /** re + im * i */
  datatype Fp2 = Fp2(re: int, im: int)

  function Plus(a: Fp2, b: Fp2, n: int): Fp2
    requires n > 0
  {
    Fp2((a.re + b.re) % n, (a.im + b.im) % n)
  }

  function Times(a: Fp2, b: Fp2, n: int): Fp2
    requires n > 0
  {
    Fp2((a.re * b.re - a.im * b.im) % n, (a.re * b.im + a.im * b.re) % n)
  }

  const B := Fp2(0x2b149d40ceb8aaae81be18991be06ac3b5b4c5e559dbefa33267e6dc24a138e5,
                 0x009713b03af0fed4cd2cafadeed8fdf4a74fa084e52d1852e4a2bd0685c315d2)

  /** The constant is three over nine plus i, as section "Definition of the groups" of EIP-197 has it. */
  lemma TwistConstant()
    ensures Times(B, Fp2(9, 1), N) == Fp2(3, 0)
  {
  }

  /** y squared is x cubed plus the constant. */
  predicate OnTwist(x: Fp2, y: Fp2) {
    Times(y, y, N) == Plus(Times(Times(x, x, N), x, N), B, N)
  }

  // ---------- the check ----------

  /** The words the check compares for y */
  function SquareBy(y0: word, y1: word): Fp2 {
    Fp2(MulMod(AddMod(y0, y1, N), AddMod(y0, Sub(N, y1), N), N), MulMod(Add(y0, y0), y1, N))
  }

  /** On any words, x is cubed in the extension field; y is squared there if doubling y0 and taking y1 from the modulus do not wrap. */
  method IsOnCurveG2(point: seq<word>) returns (r: bool)
    requires |point| == 4
    ensures 2 * point[2] < U256 && point[3] <= N ==> (r <==> OnTwist(Fp2(point[0], point[1]), Fp2(point[2], point[3])))
    ensures var x := Fp2(point[0], point[1]); r <==> SquareBy(point[2], point[3]) == Plus(Times(Times(x, x, N), x, N), B, N)
  {
    hide Times, Plus, MulMod, AddMod, Add, Sub;
    ghost var x, y := Fp2(point[0], point[1]), Fp2(point[2], point[3]);
    var t0, t1 := point[0], point[1];
    var t2 := MulMod(t0, t0, N);
    var t3 := MulMod(t1, t1, N);
    var t4 := Add(Add(t2, t2), t2);
    var t5 := AddMod(Add(t3, t3), t3, N);
    t2 := MulMod(Add(t2, Sub(N, t5)), t0, N);
    t3 := MulMod(Add(t4, Sub(N, t3)), t1, N);
    CubeWords(point[0], point[1]);
    assert Fp2(t2, t3) == Times(Times(x, x, N), x, N);
    PlusWords(t2, t3);
    t0 := AddMod(t2, 0x2b149d40ceb8aaae81be18991be06ac3b5b4c5e559dbefa33267e6dc24a138e5, N);
    t1 := AddMod(t3, 0x009713b03af0fed4cd2cafadeed8fdf4a74fa084e52d1852e4a2bd0685c315d2, N);
    t2, t3 := point[2], point[3];
    t4 := MulMod(AddMod(t2, t3, N), AddMod(t2, Sub(N, t3), N), N);
    t3 := MulMod(Add(t2, t2), t3, N);
    if 2 * point[2] < U256 && point[3] <= N {
      SquareWords(point[2], point[3]);
    }
    return t0 == t4 && t1 == t3;
  }

  /** A key is valid exactly when its coordinates are reduced and it lies on the twist. */
  method IsValidPublicKey(publicKey: seq<word>) returns (r: bool)
    requires |publicKey| == 4
    ensures r <==> (forall i :: 0 <= i < 4 ==> publicKey[i] < N) && OnTwist(Fp2(publicKey[0], publicKey[1]), Fp2(publicKey[2], publicKey[3]))
  {
    hide OnTwist;
    if publicKey[0] >= N || publicKey[1] >= N || publicKey[2] >= N || publicKey[3] >= N {
      return false;
    }
    r := IsOnCurveG2(publicKey);
  }

  // ---------- the words suffice ----------

  /** For a reduced x no sum of the cube reaches 256 bits, and no difference goes below zero. */
  lemma CubeNeverWraps(t2: word, t3: word, t5: word)
    requires t2 < N && t3 < N && t5 < N
    ensures t2 + t2 + t2 < U256 && t3 + t3 + t3 < U256 && t2 + (N - t5) < U256 && 3 * t2 + (N - t3) < U256
    ensures Add(Add(t2, t2), t2) == 3 * t2 && Add(t3, t3) == 2 * t3
    ensures Add(t2, Sub(N, t5)) == t2 + (N - t5) && Add(3 * t2, Sub(N, t3)) == 3 * t2 + (N - t3)
  {
    hide Add, Sub;
    AddSmall(t2, t2);
    AddSmall(t2 + t2, t2);
    AddSmall(t3, t3);
    SubSmall(N, t5);
    SubSmall(N, t3);
    AddSmall(t2, N - t5);
    AddSmall(3 * t2, N - t3);
  }

  /** Nor in the square, for y that are not too large; reduced ones are not. */
  lemma SquareNeverWraps(y0: word, y1: word)
    requires 2 * y0 < U256 && y1 <= N
    ensures Sub(N, y1) == N - y1 && Add(y0, y0) == 2 * y0
  {
    hide Add, Sub;
    SubSmall(N, y1);
    AddSmall(y0, y0);
  }

  /** The words computed from x are the cube in the extension field. */
  lemma CubeWords(x0: word, x1: word)
    ensures var x := Fp2(x0, x1);
      var t2 := MulMod(x0, x0, N);
      var t3 := MulMod(x1, x1, N);
      var t5 := AddMod(Add(t3, t3), t3, N);
      Times(Times(x, x, N), x, N) ==
        Fp2(MulMod(Add(t2, Sub(N, t5)), x0, N), MulMod(Add(Add(Add(t2, t2), t2), Sub(N, t3)), x1, N))
  {
    hide Times, Add, Sub, MulMod, AddMod;
    var t2 := MulMod(x0, x0, N);
    var t3 := MulMod(x1, x1, N);
    var t5 := AddMod(Add(t3, t3), t3, N);
    CubeNeverWraps(t2, t3, t5);
    MulModIs(x0, x0);
    MulModIs(x1, x1);
    AddModIs(Add(t3, t3), t3);
    MulModIs(Add(t2, Sub(N, t5)), x0);
    MulModIs(Add(3 * t2, Sub(N, t3)), x1);
    Cube(x0, x1, N);
  }

  /** The words computed from such a y are the square in the extension field. */
  lemma SquareWords(y0: word, y1: word)
    requires 2 * y0 < U256 && y1 <= N
    ensures var y := Fp2(y0, y1); Times(y, y, N) == SquareBy(y0, y1)
  {
    hide Times, Add, Sub, MulMod, AddMod;
    SquareNeverWraps(y0, y1);
    AddModIs(y0, y1);
    AddModIs(y0, Sub(N, y1));
    MulModIs(AddMod(y0, y1, N), AddMod(y0, Sub(N, y1), N));
    MulModIs(Add(y0, y0), y1);
    Square(y0, y1, N);
  }

  lemma PlusWords(a: word, b: word)
    ensures Plus(Fp2(a, b), B, N) == Fp2(AddMod(a, B.re, N), AddMod(b, B.im, N))
  {
  }

  lemma MulModIs(a: word, b: word)
    ensures MulMod(a, b, N) == (a * b) % N
  {
  }

  lemma AddModIs(a: word, b: word)
    ensures AddMod(a, b, N) == (a + b) % N
  {
  }

  // ---------- the algebra ----------

  lemma Reduced(c: int, a: int, n: int)
    requires n > 0
    ensures Cong(c * (a % n), c * a, n)
  {
    CongMod(a, n);
    CongMul(c, c, a % n, a, n);
  }

  /** The cube by the check's formulas is the cube in the extension field. */
  lemma Cube(x0: int, x1: int, n: int)
    requires n > 0
    ensures var x := Fp2(x0, x1);
      Times(Times(x, x, n), x, n) ==
        Fp2(((x0 * x0 % n + (n - (x1 * x1 % n + x1 * x1 % n + x1 * x1 % n) % n)) * x0) % n,
            ((3 * (x0 * x0 % n) + (n - x1 * x1 % n)) * x1) % n)
  {
    CubeRe(x0, x1, n);
    CubeIm(x0, x1, n);
    SquareCube(x0, x1, n);
  }

  lemma CubeRe(x0: int, x1: int, n: int)
    requires n > 0
    ensures ((x0 * x0 % n + (n - (x1 * x1 % n + x1 * x1 % n + x1 * x1 % n) % n)) * x0) % n == ((x0 * x0 - 3 * (x1 * x1)) * x0) % n
  {
    var a, b := x0 * x0, x1 * x1;
    var s := b % n + b % n + b % n;
    CongMod(a, n);
    Reduced(3, b, n);
    CongMod(s, n);
    CongTrans(s % n, s, 3 * b, n);
    CongAdd(a % n, a, s % n, 3 * b, n);
    CongIs(a % n + (n - s % n), a % n - s % n, n, 1);
    CongTrans(a % n + (n - s % n), a % n - s % n, a - 3 * b, n);
    CongMul(a % n + (n - s % n), a - 3 * b, x0, x0, n);
    CongEqual((a % n + (n - s % n)) * x0, (a - 3 * b) * x0, n);
  }

  lemma CubeIm(x0: int, x1: int, n: int)
    requires n > 0
    ensures ((3 * (x0 * x0 % n) + (n - x1 * x1 % n)) * x1) % n == ((3 * (x0 * x0) - x1 * x1) * x1) % n
  {
    var a, b := x0 * x0, x1 * x1;
    Reduced(3, a, n);
    CongMod(b, n);
    CongAdd(3 * (a % n), 3 * a, b % n, b, n);
    CongIs(3 * (a % n) + (n - b % n), 3 * (a % n) - b % n, n, 1);
    CongTrans(3 * (a % n) + (n - b % n), 3 * (a % n) - b % n, 3 * a - b, n);
    CongMul(3 * (a % n) + (n - b % n), 3 * a - b, x1, x1, n);
    CongEqual((3 * (a % n) + (n - b % n)) * x1, (3 * a - b) * x1, n);
  }

  /** The cube of x0 + x1 i multiplied out. */
  lemma SquareCube(x0: int, x1: int, n: int)
    requires n > 0
    ensures var x := Fp2(x0, x1);
      Times(Times(x, x, n), x, n) == Fp2(((x0 * x0 - 3 * (x1 * x1)) * x0) % n, ((3 * (x0 * x0) - x1 * x1) * x1) % n)
  {
    var re, im := x0 * x0 - x1 * x1, x0 * x1 + x1 * x0;
    CongMod(re, n);
    CongMod(im, n);
    CongMul(re % n, re, x0, x0, n);
    CongMul(im % n, im, x1, x1, n);
    CongMul(re % n, re, x1, x1, n);
    CongMul(im % n, im, x0, x0, n);
    CongAdd((re % n) * x0, re * x0, (im % n) * x1, im * x1, n);
    CongAdd((re % n) * x1, re * x1, (im % n) * x0, im * x0, n);
    CongEqual((re % n) * x0 - (im % n) * x1, re * x0 - im * x1, n);
    CongEqual((re % n) * x1 + (im % n) * x0, re * x1 + im * x0, n);
    Binomial(x0, x1);
  }

  lemma Binomial(x0: int, x1: int)
    ensures (x0 * x0 - x1 * x1) * x0 - (x0 * x1 + x1 * x0) * x1 == (x0 * x0 - 3 * (x1 * x1)) * x0
    ensures (x0 * x0 - x1 * x1) * x1 + (x0 * x1 + x1 * x0) * x0 == (3 * (x0 * x0) - x1 * x1) * x1
  {
  }

  /** The square by the check's formulas is the square in the extension field. */
  lemma Square(y0: int, y1: int, n: int)
    requires n > 0
    ensures var y := Fp2(y0, y1);
      Times(y, y, n) == Fp2((((y0 + y1) % n) * ((y0 + (n - y1)) % n)) % n, (2 * y0 * y1) % n)
  {
    var s, d := y0 + y1, y0 + (n - y1);
    CongMod(s, n);
    CongMod(d, n);
    CongMul(s % n, s, d % n, d, n);
    CongIs(d, y0 - y1, n, 1);
    CongIs(s, s, n, 0);
    CongMul(s, s, d, y0 - y1, n);
    CongTrans((s % n) * (d % n), s * d, s * (y0 - y1), n);
    CongEqual((s % n) * (d % n), s * (y0 - y1), n);
    assert s * (y0 - y1) == y0 * y0 - y1 * y1;
    assert y0 * y1 + y1 * y0 == 2 * y0 * y1;
  }

  // ---------- exactly which words ----------

  /** The inverse of 2^256 modulo N */
  const WORD_INVERSE := 20988524275117001072002809824448087578619730785600314334253784976379291040311

  /** A multiple of 2^256 is a multiple of N exactly if its factor is. */
  lemma WordFactor(a: int)
    ensures Cong(a * U256, 0, N) <==> a % N == 0
  {
    hide Cong;
    assert Cong(U256 * WORD_INVERSE, 1, N) by {
      CongEqual(U256 * WORD_INVERSE, 1, N);
    }
    CongEqual(a, 0, N);
    CongIs(0, 0, N, 0);
    CongIs(a, a, N, 0);
    CongIs(WORD_INVERSE, WORD_INVERSE, N, 0);
    CongIs(U256, U256, N, 0);
    if Cong(a * U256, 0, N) {
      CongMul(a * U256, 0, WORD_INVERSE, WORD_INVERSE, N);
      CongMul(a, a, U256 * WORD_INVERSE, 1, N);
      Regroup(a, U256, WORD_INVERSE);
      Flip(a * (U256 * WORD_INVERSE), a, N);
      CongTrans(a, a * (U256 * WORD_INVERSE), 0, N);
    } else if Cong(a, 0, N) {
      CongMul(a, 0, U256, U256, N);
    }
  }

  lemma Regroup(a: int, b: int, c: int)
    ensures a * b * c == a * (b * c)
  {
  }

  lemma Flip(a: int, b: int, n: int)
    requires n > 0 && Cong(a, b, n)
    ensures Cong(b, a, n)
  {
    var k := CongFactor(a, b, n);
    CongIs(b, a, n, -k);
  }

  /** Two numbers that differ by a multiple of 2^256 have one remainder exactly if the factor is a multiple of N. */
  lemma DifferByWord(a: int, b: int, f: int)
    requires a - b == f * U256
    ensures a % N == b % N <==> f % N == 0
  {
    WordFactor(f);
    CongEqual(a, b, N);
    assert Cong(a, b, N) <==> Cong(f * U256, 0, N);
  }

  /** The real words: squared rightly exactly if y1 is not above N or y0 + y1 vanishes. */
  lemma RealExactly(y0: word, y1: word)
    ensures SquareBy(y0, y1).re == (y0 * y0 - y1 * y1) % N <==> y1 <= N || (y0 + y1) % N == 0
  {
    hide Add, Sub, Cong;
    var minus := Sub(N, y1);
    var s, d := y0 + y1, y0 + minus;
    CongMod(s, N);
    CongMod(d, N);
    CongMul(s % N, s, d % N, d, N);
    CongEqual((s % N) * (d % N), s * d, N);
    WrappedMinus(y1);
    if y1 <= N {
      Product(y0, y1, N, 0);
      CongIs(s * d, y0 * y0 - y1 * y1, N, s);
      CongEqual(s * d, y0 * y0 - y1 * y1, N);
    } else {
      Product(y0, y1, N, U256);
      CongIs(s * d, y0 * y0 - y1 * y1 + s * U256, N, s);
      CongEqual(s * d, y0 * y0 - y1 * y1 + s * U256, N);
      DifferByWord(y0 * y0 - y1 * y1 + s * U256, y0 * y0 - y1 * y1, s);
    }
  }

  lemma WrappedMinus(y1: word)
    ensures Sub(N, y1) == if y1 <= N then N - y1 else N - y1 + U256
  {
  }

  lemma Product(y0: int, y1: int, n: int, extra: int)
    ensures (y0 + y1) * (y0 + (n - y1 + extra)) == y0 * y0 - y1 * y1 + (y0 + y1) * extra + (y0 + y1) * n
  {
  }

  /** The imaginary ones: exactly if doubling y0 does not wrap or y1 vanishes. */
  lemma ImaginaryExactly(y0: word, y1: word)
    ensures SquareBy(y0, y1).im == (y0 * y1 + y1 * y0) % N <==> 2 * y0 < U256 || y1 % N == 0
  {
    hide Add, Sub, Cong;
    WrappedDouble(y0);
    DoubleProduct(y0, y1);
    if 2 * y0 >= U256 {
      DifferByWord(y0 * y1 + y1 * y0, Add(y0, y0) * y1, y1);
    }
  }

  lemma WrappedDouble(y0: word)
    ensures Add(y0, y0) == if 2 * y0 < U256 then 2 * y0 else 2 * y0 - U256
  {
  }

  lemma DoubleProduct(y0: int, y1: int)
    ensures y0 * y1 + y1 * y0 == 2 * y0 * y1 && (2 * y0 - U256) * y1 == y0 * y1 + y1 * y0 - y1 * U256
  {
  }

  /** On any words: the check squares y rightly exactly here, reduced words among them. */
  lemma SquareExactly(y0: word, y1: word)
    ensures SquareBy(y0, y1) == Times(Fp2(y0, y1), Fp2(y0, y1), N) <==>
      (2 * y0 < U256 || y1 % N == 0) && (y1 <= N || (y0 + y1) % N == 0)
  {
    hide SquareBy;
    RealExactly(y0, y1);
    ImaginaryExactly(y0, y1);
  }

  // ---------- beyond the bounds ----------

  /** The negated generator of the group */
  const GENERATOR_X := Fp2(10857046999023057135944570762232829481370756359578518086990519993285655852781,
                          11559732032986387107991004021392285783925812861821192530917403151452391805634)
  const GENERATOR_Y0: word := 13392588948715843804641432497768002650278120570034223513918757245338268106653
  const GENERATOR_Y1: word := 17805874995975841540914202342111839520379459829704422454583296818431106115052

  const GENERATOR_SQUARE := Fp2(21740980388926906057426892996120422348616989628855161897682971020692097960281, 1837384903404616869280368109057824469904033017901941306968221631236329083166)
  const GENERATOR_CUBE := Fp2(17325333118563567127851667797750321471171453547099705001540310225555311263340, 18731819480823831763230454102224971938956392180592755584362846046169105903289)
  const GENERATOR_RIGHT := Fp2(14922964998483646676629501313514766888265760859103602404415903627362542533130, 18998749271943822924477361489362255781501469145925655872932224557079413539979)

  lemma TimesAre(a: Fp2, b: Fp2, c: Fp2)
    requires (a.re * b.re - a.im * b.im) % N == c.re && (a.re * b.im + a.im * b.re) % N == c.im
    ensures Times(a, b, N) == c
  {
  }

  lemma GeneratorOnTwist()
    ensures Times(Times(GENERATOR_X, GENERATOR_X, N), GENERATOR_X, N) == GENERATOR_CUBE
    ensures Plus(GENERATOR_CUBE, B, N) == GENERATOR_RIGHT
    ensures Times(Fp2(GENERATOR_Y0, GENERATOR_Y1), Fp2(GENERATOR_Y0, GENERATOR_Y1), N) == GENERATOR_RIGHT
  {
    hide Times;
    TimesAre(GENERATOR_X, GENERATOR_X, GENERATOR_SQUARE);
    TimesAre(GENERATOR_SQUARE, GENERATOR_X, GENERATOR_CUBE);
    TimesAre(Fp2(GENERATOR_Y0, GENERATOR_Y1), Fp2(GENERATOR_Y0, GENERATOR_Y1), GENERATOR_RIGHT);
  }

  lemma SquareByRe(y0: word, y1: word, sum: word, minus: word, difference: word, re: word)
    requires (y0 + y1) % N == sum && (N - y1) % U256 == minus && (y0 + minus) % N == difference && (sum * difference) % N == re
    ensures SquareBy(y0, y1).re == re
  {
  }

  lemma SquareByIm(y0: word, y1: word, double: word, im: word)
    requires (y0 + y0) % U256 == double && (double * y1) % N == im
    ensures SquareBy(y0, y1).im == im
  {
  }

  /** It is on the twist, and written with larger words that stand for the same y the check refuses it, by either coordinate. */
  lemma UnreducedRefused()
    ensures OnTwist(GENERATOR_X, Fp2(GENERATOR_Y0, GENERATOR_Y1))
    ensures var rhs := Plus(Times(Times(GENERATOR_X, GENERATOR_X, N), GENERATOR_X, N), B, N);
      && GENERATOR_Y1 + N < U256 && SquareBy(GENERATOR_Y0, GENERATOR_Y1 + N) != rhs
      && GENERATOR_Y0 + 3 * N < U256 && SquareBy(GENERATOR_Y0 + 3 * N, GENERATOR_Y1) != rhs
  {
    hide Times, Plus, SquareBy;
    GeneratorOnTwist();
    SquareByRe(GENERATOR_Y0, GENERATOR_Y1 + N,
               9310221072852410123309229094622567081961269242440822305813016169124148013122,
               97986214241340353882656782666576068332890524835936141584874287189482023524884,
               1937588830859821576066186438057695539687089619481246785347854961594160588622,
               12099865199592245890714198218260699977626558190362743335011739917196030146157);
    SquareByIm(GENERATOR_Y0 + 3 * N, GENERATOR_Y1,
               42322545891151143519190314458391747979464123418214824964514157850634763824868,
               3281446846099032266453160682171194398158565438427082401492741200575166258738);
  }
}
