/** Congruences, and the 256-bit words of the EVM. */
module Modular {
  import opened Bytes

  type word = n: int | 0 <= n < 0x1_0000000000000000_0000000000000000_0000000000000000_0000000000000000

  /** `add` */
  function Add(a: word, b: word): word {
    (a + b) % U256
  }

  /** `sub` */
  function Sub(a: word, b: word): word {
    (a - b) % U256
  }

  lemma AddSmall(a: word, b: word)
    requires a + b < U256
    ensures Add(a, b) == a + b
  {
  }

  lemma SubSmall(a: word, b: word)
    requires b <= a
    ensures Sub(a, b) == a - b
  {
  }

  /** `addmod`, whose sum does not wrap */
  function AddMod(a: word, b: word, n: word): (r: word)
    requires n > 0
    ensures r < n
  {
    (a + b) % n
  }

  /** `mulmod`, whose product does not wrap */
  function MulMod(a: word, b: word, n: word): (r: word)
    requires n > 0
    ensures r < n
  {
    (a * b) % n
  }

  ghost predicate Cong(a: int, b: int, n: int)
    requires n > 0
  {
    (a - b) % n == 0
  }

  lemma Multiple(k: int, n: int)
    requires n > 0
    ensures (k * n) % n == 0
  {
    var q := (k * n) / n;
    assert (k * n) % n == (k - q) * n;
    Apart(k - q, n);
  }

  /** Multiples other than zero are at least one modulus away from it. */
  lemma Apart(k: int, n: int)
    requires n > 0
    ensures k == 0 || k * n >= n || k * n <= -n
  {
    if k >= 1 {
      assert (k - 1) * n >= 0;
    } else if k <= -1 {
      assert (-k - 1) * n >= 0;
    }
  }

  lemma CongIs(a: int, b: int, n: int, k: int)
    requires n > 0 && a - b == k * n
    ensures Cong(a, b, n)
  {
    Multiple(k, n);
  }

  lemma CongFactor(a: int, b: int, n: int) returns (k: int)
    requires n > 0 && Cong(a, b, n)
    ensures a - b == k * n
  {
    k := (a - b) / n;
  }

  lemma CongMod(a: int, n: int)
    requires n > 0
    ensures Cong(a % n, a, n)
  {
    CongIs(a % n, a, n, -(a / n));
  }

  /** Congruent means equal remainders. */
  lemma CongEqual(a: int, b: int, n: int)
    requires n > 0
    ensures Cong(a, b, n) <==> a % n == b % n
  {
    if Cong(a, b, n) {
      var k := CongFactor(a, b, n);
      var d := a / n - b / n;
      assert a % n - b % n == (k - d) * n;
      Apart(k - d, n);
    } else {
      if a % n == b % n {
        CongIs(a, b, n, a / n - b / n);
      }
    }
  }

  lemma CongAdd(a: int, b: int, c: int, d: int, n: int)
    requires n > 0 && Cong(a, b, n) && Cong(c, d, n)
    ensures Cong(a + c, b + d, n) && Cong(a - c, b - d, n)
  {
    var k := CongFactor(a, b, n);
    var l := CongFactor(c, d, n);
    CongIs(a + c, b + d, n, k + l);
    CongIs(a - c, b - d, n, k - l);
  }

  lemma CongMul(a: int, b: int, c: int, d: int, n: int)
    requires n > 0 && Cong(a, b, n) && Cong(c, d, n)
    ensures Cong(a * c, b * d, n)
  {
    var k := CongFactor(a, b, n);
    var l := CongFactor(c, d, n);
    calc {
      a * c - b * d;
      (b + k * n) * (d + l * n) - b * d;
      (b * l + k * d + k * l * n) * n;
    }
    CongIs(a * c, b * d, n, b * l + k * d + k * l * n);
  }

  lemma CongTrans(a: int, b: int, c: int, n: int)
    requires n > 0 && Cong(a, b, n) && (Cong(b, c, n) || Cong(c, b, n))
    ensures Cong(a, c, n)
  {
    CongEqual(a, b, n);
    CongEqual(b, c, n);
    CongEqual(c, b, n);
    CongEqual(a, c, n);
  }
}
