/**
  Mapping a hash to a point of the curve y^2 = x^3 + 3 over the base field: from the
  hash on, the first x for which the right-hand side has a square root. That the
  modulus obeys Fermat's theorem is a hypothesis; the modular power is the one of
  the Specification section of EIP-198.
 */
module HashToPoint {
  import opened Bytes
  import opened Modular
  import opened CurveG2

  function Power(b: int, e: nat): int {
    if e == 0 then 1 else b * Power(b, e - 1)
  }

  function ModExp(b: word, e: word, n: word): (r: word)
    requires n > 0
    ensures r < n
  {
    Power(b, e) % n
  }

  /** (N + 1) / 4 */
  const ROOT_EXPONENT: word := 0xc19139cb84c680a6e14116da060561765e05aa45a1c72a34f082305b61f3f52

  ghost predicate PowerIsOne(a: int) {
    Power(a, N - 1) % N == 1
  }

  ghost predicate Fermat() {
    forall a: int :: 0 < a < N ==> PowerIsOne(a)
  }

  ghost predicate IsRoot(r: int, v: int) {
    0 <= r < N && (r * r) % N == v
  }

  ghost predicate HasRoot(v: int) {
    exists r :: IsRoot(r, v)
  }

  /** The right-hand side of the curve's equation */
  function CurveAt(x: int): (v: int)
    ensures 0 <= v < N
  {
    (x * x * x + 3) % N
  }

  // ---------- powers ----------

  lemma {:induction false} PowerAdd(b: int, d: nat, e: nat)
    ensures Power(b, d + e) == Power(b, d) * Power(b, e)
  {
    if d > 0 {
      PowerAdd(b, d - 1, e);
      assert Power(b, d + e) == b * Power(b, d - 1 + e);
      Associate(b, Power(b, d - 1), Power(b, e));
    }
  }

  lemma {:induction false} PowerSquare(r: int, k: nat)
    ensures Power(r * r, k) == Power(r, 2 * k)
  {
    if k > 0 {
      PowerSquare(r, k - 1);
      assert Power(r, 2 * k) == r * Power(r, 2 * k - 1) == r * (r * Power(r, 2 * (k - 1)));
      Associate(r, r, Power(r, 2 * (k - 1)));
    }
  }

  lemma {:induction false} PowerCong(a: int, b: int, k: nat, n: int)
    requires n > 0 && Cong(a, b, n)
    ensures Cong(Power(a, k), Power(b, k), n)
  {
    if k > 0 {
      PowerCong(a, b, k - 1, n);
      CongMul(a, b, Power(a, k - 1), Power(b, k - 1), n);
    }
  }

  lemma Associate(a: int, b: int, c: int)
    ensures a * (b * c) == (a * b) * c
  {
  }

  // ---------- square roots ----------

  /** The candidate root's square, for a value that is a square: r^(N-1) times r^2. */
  lemma RootSquared(r: int, k: nat)
    requires 4 * k == N + 1
    ensures Power(r * r, k) * Power(r * r, k) == Power(r, N - 1) * (r * r)
  {
    hide Power;
    PowerSquare(r, k);
    PowerAdd(r, 2 * k, 2 * k);
    PowerAdd(r, N - 1, 2);
    SecondPower(r);
  }

  lemma SecondPower(r: int)
    ensures Power(r, 2) == r * r
  {
    assert Power(r, 1) == r;
  }

  /** What `sqrt` squares: if the value is a square, its square is the value. */
  lemma SqrtFinds(r: int, v: int)
    requires Fermat() && IsRoot(r, v)
    ensures (ModExp(v, ROOT_EXPONENT, N) * ModExp(v, ROOT_EXPONENT, N)) % N == v
  {
    hide Power, Fermat, ModExp, Cong;
    var p := Power(v, ROOT_EXPONENT);
    var q := Power(r * r, ROOT_EXPONENT);
    var x := ModExp(v, ROOT_EXPONENT, N);
    ModExpIs(v);
    CongMod(p, N);
    CongMod(r * r, N);
    PowerCong(v, r * r, ROOT_EXPONENT, N);
    RootSquared(r, ROOT_EXPONENT);
    FermatSquare(r);
    SquaresAgree(x, p, q, r * r, N);
  }

  lemma SquaresAgree(x: int, p: int, q: int, s: int, n: int)
    requires n > 0 && Cong(x, p, n) && Cong(p, q, n) && Cong(q * q, s, n)
    ensures (x * x) % n == s % n
  {
    hide Cong;
    CongTrans(x, p, q, n);
    CongMul(x, q, x, q, n);
    CongTrans(x * x, q * q, s, n);
    CongEqual(x * x, s, n);
  }

  lemma ModExpIs(v: word)
    ensures ModExp(v, ROOT_EXPONENT, N) == Power(v, ROOT_EXPONENT) % N
  {
  }

  lemma FermatSquare(r: int)
    requires Fermat() && 0 <= r < N
    ensures Cong(Power(r, N - 1) * (r * r), r * r, N)
  {
    hide Power, Cong;
    if r == 0 {
      CongIs(Power(r, N - 1) * (r * r), r * r, N, 0);
    } else {
      assert PowerIsOne(r);
      CongEqual(Power(r, N - 1), 1, N);
      CongIs(r * r, r * r, N, 0);
      CongMul(Power(r, N - 1), 1, r * r, r * r, N);
    }
  }

  /** `sqrt` finds a root exactly when there is one. */
  method Sqrt(xx: word) returns (x: word, hasRoot: bool)
    requires Fermat()
    ensures hasRoot <==> HasRoot(xx)
    ensures hasRoot ==> IsRoot(x, xx)
  {
    hide Fermat, ModExp, Power;
    x := ModExp(xx, ROOT_EXPONENT, N);
    hasRoot := xx == MulMod(x, x, N);
    if HasRoot(xx) {
      ghost var r :| IsRoot(r, xx);
      SqrtFinds(r, xx);
    }
    assert hasRoot ==> IsRoot(x, xx);
  }

  // ---------- the search ----------

  /** Going round the field from x, how far it is to one. */
  function ToOne(x: int): nat
    requires 0 <= x < N
  {
    if x <= 1 then 1 - x else N + 1 - x
  }

  /** At one there is a root, since one plus three is two squared. */
  lemma RootAtOne()
    ensures IsRoot(2, CurveAt(1))
  {
  }

  lemma CurveAtIs(x: word)
    requires x < N
    ensures AddMod(MulMod(MulMod(x, x, N), x, N), 3, N) == CurveAt(x)
  {
    var s := x * x;
    CongMod(s, N);
    CongMul(s % N, s, x, x, N);
    CongMod((s % N) * x, N);
    CongTrans(((s % N) * x) % N, (s % N) * x, s * x, N);
    CongIs(3, 3, N, 0);
    CongAdd(((s % N) * x) % N, s * x, 3, 3, N);
    CongEqual(((s % N) * x) % N + 3, s * x + 3, N);
  }

  /** The place `k` steps round the field from the hash. */
  function Around(hash: int, k: nat): (x: int)
    ensures 0 <= x < N
  {
    (hash + k) % N
  }

  lemma AroundNext(hash: int, k: nat)
    ensures Around(hash, k + 1) == (Around(hash, k) + 1) % N
  {
    CongMod(hash + k, N);
    CongIs(1, 1, N, 0);
    CongAdd((hash + k) % N, hash + k, 1, 1, N);
    CongEqual((hash + k) % N + 1, hash + k + 1, N);
  }

  /** A point of the curve, at the first x from the hash on that has one. */
  method MapToPoint(hash: word) returns (x: word, y: word, ghost k: nat)
    requires Fermat()
    ensures x == Around(hash, k) && IsRoot(y, CurveAt(x))
    ensures forall j: nat :: j < k ==> !HasRoot(CurveAt(Around(hash, j)))
    ensures k < N
  {
    hide Fermat, IsRoot, HasRoot, CurveAt, Around, MulMod, AddMod;
    x := hash % N;
    k := 0;
    AroundStart(hash);
    ghost var far := ToOne(x);
    while true
      invariant x < N && x == Around(hash, k) && ToOne(x) + k == far
      invariant forall j: nat :: j < k ==> !HasRoot(CurveAt(Around(hash, j)))
      decreases ToOne(x)
    {
      var z := AddMod(MulMod(MulMod(x, x, N), x, N), 3, N);
      CurveAtIs(x);
      var found;
      y, found := Sqrt(z);
      if found {
        return;
      }
      NotAtOne(x);
      AroundNext(hash, k);
      AddOne(x);
      x := AddMod(x, 1, N);
      k := k + 1;
    }
  }

  lemma AroundStart(hash: word)
    ensures Around(hash, 0) == hash % N
  {
  }

  lemma NotAtOne(x: int)
    requires 0 <= x < N && !HasRoot(CurveAt(x))
    ensures x != 1
  {
    RootAtOne();
  }

  lemma AddOne(x: word)
    requires x < N && x != 1
    ensures AddMod(x, 1, N) == (x + 1) % N && ToOne((x + 1) % N) == ToOne(x) - 1
  {
  }
}
