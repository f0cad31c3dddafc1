/**
  The Go event codec. An event is written as its process and nonce, its asset and
  amount, the extra, the time, the members with their threshold, and the signature.
  Byte strings and the amount carry a two-byte length. Identifiers are modelled by
  their sixteen bytes. A Go panic is `None`.
 */
module EventCodec {
  import opened Bytes

  const EXTRA_MAX_SIZE := 256
  const MEMBERS_MAX := 64
  const INT_MAX := 0xffff

  datatype Event = Event(
    process: uuid,
    asset: uuid,
    members: seq<uuid>,
    threshold: nat,
    amount: nat,
    extra: bytes,
    timestamp: uint64,
    nonce: uint64,
    signature: bytes)

  /** The event as members sign it: with its signature cleared. */
  function Unsigned(e: Event): Event {
    e.(signature := [])
  }

  /** Exactly the events on which `Encode` does not panic. */
  predicate Encodable(e: Event) {
    && |Minimal(e.amount)| <= INT_MAX
    && |e.extra| <= EXTRA_MAX_SIZE
    && |e.members| <= MEMBERS_MAX
    && e.threshold <= |e.members|
    && |e.signature| <= EXTRA_MAX_SIZE
  }

  function Sized(b: bytes): bytes {
    ToBE(|b|, 2) + b
  }

  function Flatten(ids: seq<uuid>): (b: bytes)
    ensures |b| == 16 * |ids|
  {
    if ids == [] then [] else ids[0] + Flatten(ids[1..])
  }

  function MemberBlock(members: seq<uuid>, threshold: nat): (b: bytes)
    ensures |b| == 16 * |members| + 4
  {
    ToBE(|members|, 2) + Flatten(members) + ToBE(threshold, 2)
  }

  /** The fields in wire order. */
  function Fields(e: Event): (f: seq<bytes>)
    ensures |f| == 11
  {
    var digits := Minimal(e.amount);
    [e.process, ToBE(e.nonce, 8), e.asset, ToBE(|digits|, 2), digits, ToBE(|e.extra|, 2), e.extra,
     ToBE(e.timestamp, 8), MemberBlock(e.members, e.threshold), ToBE(|e.signature|, 2), e.signature]
  }

  /** Fields `k` and after, written one behind the other. */
  function Cat(f: seq<bytes>, k: nat): bytes
    requires k <= |f|
    decreases |f| - k
  {
    if k == |f| then [] else f[k] + Cat(f, k + 1)
  }

  function Encoded(e: Event): bytes {
    Cat(Fields(e), 0)
  }

  lemma Assoc(a: bytes, b: bytes, c: bytes)
    ensures (a + b) + c == a + (b + c)
  {
  }

  lemma CatEnd(f: seq<bytes>, s: bytes)
    ensures Cat(f, |f|) == [] && Cat(f, |f|) + s == s && s + Cat(f, |f|) == s
  {
  }

  /** Appending the next field keeps what is written plus what is to come. */
  lemma Emit(enc: bytes, f: seq<bytes>, k: nat, whole: bytes)
    requires k < |f| && enc + Cat(f, k) == whole
    ensures (enc + f[k]) + Cat(f, k + 1) == whole
  {
    Assoc(enc, f[k], Cat(f, k + 1));
  }

  method EncodeMembers(enc: bytes, members: seq<uuid>) returns (r: bytes)
    ensures r == enc + Flatten(members)
  {
    r := enc;
    for i := 0 to |members|
      invariant r + Flatten(members[i..]) == enc + Flatten(members)
    {
      assert members[i..][1..] == members[i + 1..];
      Assoc(r, members[i], Flatten(members[i + 1..]));
      r := r + members[i];
    }
  }

  /** Go's `Event.Encode`: an append-only buffer. */
  method Encode(e: Event) returns (r: Option<bytes>)
    ensures r == if Encodable(e) then Some(Encoded(e)) else None
  {
    hide Cat, ToBE, Minimal, MemberBlock, Flatten;
    var digits := Minimal(e.amount);
    ghost var f, whole := Fields(e), Encoded(e);
    var enc: bytes := [];
    Emit(enc, f, 0, whole);
    enc := enc + e.process;
    Emit(enc, f, 1, whole);
    enc := enc + ToBE(e.nonce, 8);
    Emit(enc, f, 2, whole);
    enc := enc + e.asset;
    if |digits| > INT_MAX {
      return None;
    }
    Emit(enc, f, 3, whole);
    enc := enc + ToBE(|digits|, 2);
    Emit(enc, f, 4, whole);
    enc := enc + digits;
    if |e.extra| > EXTRA_MAX_SIZE {
      return None;
    }
    Emit(enc, f, 5, whole);
    enc := enc + ToBE(|e.extra|, 2);
    Emit(enc, f, 6, whole);
    enc := enc + e.extra;
    Emit(enc, f, 7, whole);
    enc := enc + ToBE(e.timestamp, 8);
    if |e.members| > MEMBERS_MAX {
      return None;
    }
    ghost var beforeMembers := enc;
    Emit(enc, f, 8, whole);
    enc := enc + ToBE(|e.members|, 2);
    enc := EncodeMembers(enc, e.members);
    if e.threshold > |e.members| {
      return None;
    }
    enc := enc + ToBE(e.threshold, 2);
    BlockAssoc(beforeMembers, e.members, e.threshold);
    if |e.signature| > EXTRA_MAX_SIZE {
      return None;
    }
    Emit(enc, f, 9, whole);
    enc := enc + ToBE(|e.signature|, 2);
    Emit(enc, f, 10, whole);
    enc := enc + e.signature;
    CatEnd(f, enc);
    return Some(enc);
  }

  lemma BlockAssoc(enc: bytes, members: seq<uuid>, threshold: nat)
    ensures ((enc + ToBE(|members|, 2)) + Flatten(members)) + ToBE(threshold, 2) == enc + MemberBlock(members, threshold)
  {
  }

  // ---------- decoding ----------

  /** The next `n` bytes and what follows them. */
  function Take(b: bytes, n: nat): (r: Option<(bytes, bytes)>)
    ensures r.Some? ==> |r.value.0| == n
  {
    if n <= |b| then Some((b[..n], b[n..])) else None
  }

  function ReadUint(b: bytes, width: nat): Option<(nat, bytes)> {
    var (digits, rest) :- Take(b, width);
    Some((FromBE(digits), rest))
  }

  function ReadSized(b: bytes): (r: Option<(bytes, bytes)>)
  {
    var (size, rest) :- ReadUint(b, 2);
    Take(rest, size)
  }

  function ReadMembers(b: bytes, count: nat): (r: Option<(seq<uuid>, bytes)>)
    decreases count
  {
    if count == 0 then Some(([], b)) else
      var (first, rest) :- Take(b, 16);
      var (others, rest') :- ReadMembers(rest, count - 1);
      var id: uuid := first;
      Some(([id] + others, rest'))
  }

  function ReadMemberBlock(b: bytes): (r: Option<((seq<uuid>, nat), bytes)>) {
    var (count, b1) :- ReadUint(b, 2);
    var (members, b2) :- ReadMembers(b1, count);
    var (threshold, b3) :- ReadUint(b2, 2);
    Some(((members, threshold), b3))
  }

  lemma Pow256Values()
    ensures Pow256(8) == 0x1_0000_0000_0000_0000
    ensures Pow256(2) == 0x1_0000
  {
    assert Pow256(4) == 0x1_0000_0000;
  }

  function ReadUint64(b: bytes): (r: Option<(uint64, bytes)>)
  {
    var (digits, rest) :- Take(b, 8);
    FromBEBound(digits);
    Pow256Values();
    var n: uint64 := FromBE(digits);
    Some((n, rest))
  }

  /** An event and the bytes behind it. */
  function Parsed(b: bytes): Option<(Event, bytes)> {
    var (process, b1) :- Take(b, 16);
    var (nonce, b2) :- ReadUint64(b1);
    var (asset, b3) :- Take(b2, 16);
    var (amount, b4) :- ReadSized(b3);
    var (extra, b5) :- ReadSized(b4);
    var (timestamp, b6) :- ReadUint64(b5);
    var ((members, threshold), b7) :- ReadMemberBlock(b6);
    var (signature, b8) :- ReadSized(b7);
    Some((Event(process, asset, members, threshold, FromBE(amount), extra, timestamp, nonce, signature), b8))
  }

  /** What `DecodeEvent` returns: like the Go code it does not look behind the last field. */
  function Decoded(b: bytes): Option<Event> {
    var (e, _) :- Parsed(b);
    Some(e)
  }

  function Prepended(ids: seq<uuid>, tail: Option<(seq<uuid>, bytes)>): Option<(seq<uuid>, bytes)> {
    var (others, rest) :- tail;
    Some((ids + others, rest))
  }

  /** The loop of `DecodeEvent` that fills the member list. */
  method DecodeMembers(b: bytes, count: nat) returns (r: Option<(seq<uuid>, bytes)>)
    ensures r == ReadMembers(b, count)
  {
    var members: seq<uuid>, rest := [], b;
    ghost var all := ReadMembers(b, count);
    assert all.Some? ==> members + all.value.0 == all.value.0;
    for i := 0 to count
      invariant all == Prepended(members, ReadMembers(rest, count - i))
    {
      var next := Take(rest, 16);
      if next.None? {
        return None;
      }
      var id: uuid := next.value.0;
      ghost var tail := ReadMembers(next.value.1, count - i - 1);
      assert tail.Some? ==> members + ([id] + tail.value.0) == (members + [id]) + tail.value.0;
      members := members + [id];
      rest := next.value.1;
    }
    assert members + [] == members;
    return Some((members, rest));
  }

  /** Go's `DecodeEvent`: a cursor that moves field by field. */
  method DecodeEvent(b: bytes) returns (r: Option<Event>)
    ensures r == Decoded(b)
  {
    var process := Take(b, 16);
    if process.None? { return None; }
    var nonce := ReadUint64(process.value.1);
    if nonce.None? { return None; }
    var asset := Take(nonce.value.1, 16);
    if asset.None? { return None; }
    var amount := ReadSized(asset.value.1);
    if amount.None? { return None; }
    var extra := ReadSized(amount.value.1);
    if extra.None? { return None; }
    var timestamp := ReadUint64(extra.value.1);
    if timestamp.None? { return None; }
    var count := ReadUint(timestamp.value.1, 2);
    if count.None? { return None; }
    var members := DecodeMembers(count.value.1, count.value.0);
    if members.None? { return None; }
    var threshold := ReadUint(members.value.1, 2);
    if threshold.None? { return None; }
    var signature := ReadSized(threshold.value.1);
    if signature.None? { return None; }
    return Some(Event(process.value.0, asset.value.0, members.value.0, threshold.value.0, FromBE(amount.value.0),
                      extra.value.0, timestamp.value.0, nonce.value.0, signature.value.0));
  }

  // ---------- the two are inverse ----------

  lemma TakeConcat(a: bytes, rest: bytes)
    ensures Take(a + rest, |a|) == Some((a, rest))
  {
    assert (a + rest)[..|a|] == a && (a + rest)[|a|..] == rest;
  }

  lemma ReadUintToBE(n: nat, width: nat, rest: bytes)
    requires n < Pow256(width)
    ensures ReadUint(ToBE(n, width) + rest, width) == Some((n, rest))
  {
    TakeConcat(ToBE(n, width), rest);
    FromToBE(n, width);
  }

  lemma {:induction false} ReadMembersFlatten(ids: seq<uuid>, rest: bytes)
    ensures ReadMembers(Flatten(ids) + rest, |ids|) == Some((ids, rest))
  {
    if ids == [] {
      assert Flatten(ids) + rest == rest;
    } else {
      ReadMembersFlatten(ids[1..], rest);
      assert Flatten(ids) + rest == ids[0] + (Flatten(ids[1..]) + rest);
      TakeConcat(ids[0], Flatten(ids[1..]) + rest);
      assert [ids[0]] + ids[1..] == ids;
    }
  }

  lemma ReadMemberBlockBack(members: seq<uuid>, threshold: nat, rest: bytes)
    requires |members| <= INT_MAX && threshold <= INT_MAX
    ensures ReadMemberBlock(MemberBlock(members, threshold) + rest) == Some(((members, threshold), rest))
  {
    Pow256Values();
    var s1 := ToBE(threshold, 2) + rest;
    var s0 := Flatten(members) + s1;
    assert MemberBlock(members, threshold) + rest == ToBE(|members|, 2) + s0;
    ReadUintToBE(|members|, 2, s0);
    ReadMembersFlatten(members, s1);
    ReadUintToBE(threshold, 2, rest);
  }

  lemma TakeField(f: seq<bytes>, k: nat, rest: bytes)
    requires k < |f|
    ensures Take(Cat(f, k) + rest, |f[k]|) == Some((f[k], Cat(f, k + 1) + rest))
    ensures Cat(f, k) + rest == f[k] + (Cat(f, k + 1) + rest)
  {
    Assoc(f[k], Cat(f, k + 1), rest);
    TakeConcat(f[k], Cat(f, k + 1) + rest);
  }

  lemma ReadSizedField(f: seq<bytes>, k: nat, rest: bytes)
    requires k + 1 < |f| && |f[k + 1]| <= INT_MAX && f[k] == ToBE(|f[k + 1]|, 2)
    ensures ReadSized(Cat(f, k) + rest) == Some((f[k + 1], Cat(f, k + 2) + rest))
  {
    Pow256Values();
    TakeField(f, k, rest);
    FromToBE(|f[k + 1]|, 2);
    TakeField(f, k + 1, rest);
  }

  lemma ReadUint64Field(f: seq<bytes>, k: nat, n: uint64, rest: bytes)
    requires k < |f| && f[k] == ToBE(n, 8)
    ensures ReadUint64(Cat(f, k) + rest) == Some((n, Cat(f, k + 1) + rest))
  {
    Pow256Values();
    TakeField(f, k, rest);
    FromToBE(n, 8);
  }

  /** A list of fields in wire order decodes field by field. */
  lemma ParsedFields(f: seq<bytes>, process: uuid, nonce: uint64, asset: uuid, timestamp: uint64,
                     members: seq<uuid>, threshold: nat, rest: bytes)
    requires |f| == 11 && f[0] == process && f[1] == ToBE(nonce, 8) && f[2] == asset
    requires |f[4]| <= INT_MAX && f[3] == ToBE(|f[4]|, 2)
    requires |f[6]| <= INT_MAX && f[5] == ToBE(|f[6]|, 2)
    requires f[7] == ToBE(timestamp, 8) && f[8] == MemberBlock(members, threshold)
    requires |members| <= INT_MAX && threshold <= INT_MAX
    requires |f[10]| <= INT_MAX && f[9] == ToBE(|f[10]|, 2)
    ensures Parsed(Cat(f, 0) + rest) ==
      Some((Event(process, asset, members, threshold, FromBE(f[4]), f[6], timestamp, nonce, f[10]), rest))
  {
    hide Cat, Take, ReadSized, ReadUint64, ReadMemberBlock, MemberBlock, ToBE, FromBE;
    TakeField(f, 0, rest);
    ReadUint64Field(f, 1, nonce, rest);
    TakeField(f, 2, rest);
    ReadSizedField(f, 3, rest);
    ReadSizedField(f, 5, rest);
    ReadUint64Field(f, 7, timestamp, rest);
    TakeField(f, 8, rest);
    ReadMemberBlockBack(members, threshold, Cat(f, 9) + rest);
    ReadSizedField(f, 9, rest);
    CatEnd(f, rest);
  }

  /** Decoding undoes encoding, whatever follows the encoded event. */
  lemma DecodeUndoesEncode(e: Event, rest: bytes)
    requires Encodable(e)
    ensures Parsed(Encoded(e) + rest) == Some((e, rest))
    ensures Decoded(Encoded(e) + rest) == Some(e)
  {
    ParsedFields(Fields(e), e.process, e.nonce, e.asset, e.timestamp, e.members, e.threshold, rest);
    FromMinimal(e.amount);
  }

  /** No encoding is a prefix of another one: equal bytes, even with different tails, mean equal events. */
  lemma EncodeInjective(e: Event, e': Event, rest: bytes, rest': bytes)
    requires Encodable(e) && Encodable(e')
    requires Encoded(e) + rest == Encoded(e') + rest'
    ensures e == e' && rest == rest'
  {
    DecodeUndoesEncode(e, rest);
    DecodeUndoesEncode(e', rest');
  }
}
