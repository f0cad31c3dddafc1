/**
  Byte strings and big-endian integers: the vocabulary shared by the Go event
  codec, the Solidity parser and printer, and the byte-keyed database queues.
 */
module Bytes {

  type byte = b: int | 0 <= b < 256
  type bytes = seq<byte>
  type uint64 = n: int | 0 <= n < 0x1_0000_0000_0000_0000
  type Address = nat
  type uuid = s: bytes | |s| == 16 witness Zeros(16)

  datatype Option<+T> = None | Some(value: T) {
    predicate IsFailure() {
      None?
    }

    function PropagateFailure<U>(): Option<U>
      requires None?
    {
      None
    }

    function Extract(): T
      requires Some?
    {
      value
    }
  }

  function Zeros(k: nat): (s: bytes)
    ensures |s| == k
    ensures forall i :: 0 <= i < k ==> s[i] == 0
  {
    seq(k, _ => 0)
  }

  /** 256 to the power `k`. */
  function Pow256(k: nat): (p: nat)
    ensures p > 0
  {
    if k == 0 then 1 else 256 * Pow256(k - 1)
  }

  const U64 := 0x1_0000_0000_0000_0000
  const U128 := 0x1_0000_0000_0000_0000_0000_0000_0000_0000
  const U256 := 0x1_0000000000000000_0000000000000000_0000000000000000_0000000000000000
  const U248 := 0x1_00000000000000_0000000000000000_0000000000000000_0000000000000000

  lemma Pow256Words()
    ensures Pow256(8) == U64 && Pow256(16) == U128
    ensures Pow256(31) == U248 && Pow256(32) == U256
  {
    assert Pow256(8) == 0x1_0000000000000000;
    assert Pow256(16) == 0x1_0000000000000000_0000000000000000;
    assert Pow256(24) == 0x1_0000000000000000_0000000000000000_0000000000000000;
    assert Pow256(31) == U248;
  }

  /** The integer whose big-endian digits are `s`. */
  function FromBE(s: bytes): nat {
    if s == [] then 0 else FromBE(s[..|s| - 1]) * 256 + s[|s| - 1]
  }

  /** The low `width` bytes of `n`, most significant first: a fixed-width cast. */
  function ToBE(n: nat, width: nat): (s: bytes)
    ensures |s| == width
  {
    if width == 0 then [] else ToBE(n / 256, width - 1) + [n % 256]
  }

  /** The big-endian digits of `n` without leading zeros; zero has none. */
  function Minimal(n: nat): (s: bytes)
  {
    if n == 0 then [] else Minimal(n / 256) + [n % 256]
  }

  lemma {:induction false} FromBEBound(s: bytes)
    ensures FromBE(s) < Pow256(|s|)
  {
    if s != [] {
      FromBEBound(s[..|s| - 1]);
    }
  }

  lemma {:induction false} FromToBE(n: nat, width: nat)
    requires n < Pow256(width)
    ensures FromBE(ToBE(n, width)) == n
  {
    if width != 0 {
      FromToBE(n / 256, width - 1);
      assert ToBE(n, width)[..width - 1] == ToBE(n / 256, width - 1);
    }
  }

  lemma {:induction false} ToFromBE(s: bytes)
    ensures ToBE(FromBE(s), |s|) == s
  {
    if s != [] {
      var front := s[..|s| - 1];
      ToFromBE(front);
      assert s == front + [s[|s| - 1]];
    }
  }

  lemma {:induction false} FromMinimal(n: nat)
    ensures FromBE(Minimal(n)) == n
  {
    if n != 0 {
      FromMinimal(n / 256);
      assert Minimal(n)[..|Minimal(n)| - 1] == Minimal(n / 256);
    }
  }

  /** `k` bytes are enough for the minimal form exactly when the value is below `256^k`. */
  lemma {:induction false} MinimalLength(n: nat, k: nat)
    ensures |Minimal(n)| <= k <==> n < Pow256(k)
  {
    if n != 0 && k != 0 {
      MinimalLength(n / 256, k - 1);
    }
  }

  lemma {:induction false} FromBEConcat(a: bytes, b: bytes)
    ensures FromBE(a + b) == FromBE(a) * Pow256(|b|) + FromBE(b)
  {
    if b == [] {
      assert a + b == a;
    } else {
      var front := b[..|b| - 1];
      FromBEConcat(a, front);
      assert (a + b)[..|a + b| - 1] == a + front;
      assert (FromBE(a) * Pow256(|front|)) * 256 == FromBE(a) * Pow256(|b|);
    }
  }

  lemma {:induction false} FromBEZeros(k: nat)
    ensures FromBE(Zeros(k)) == 0
  {
    if k != 0 {
      FromBEZeros(k - 1);
      assert Zeros(k)[..k - 1] == Zeros(k - 1);
    }
  }

  /** Leading zeros do not change the value. */
  lemma FromBEPadded(k: nat, s: bytes)
    ensures FromBE(Zeros(k) + s) == FromBE(s)
  {
    FromBEZeros(k);
    FromBEConcat(Zeros(k), s);
  }
}
