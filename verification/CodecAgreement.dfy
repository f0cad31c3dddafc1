/**
  The contract and the Go code read the same bytes the same way.

  Inbound: the contract recovers every field of an event the Go code encodes and
  rebuilds exactly the bytes the members signed; and on any bytes at all that the
  contract accepts, the Go decoder finds the same fields in the signed message.
  Outbound: the Go decoder recovers what the contract printed, exactly when the
  extra fits its 16-bit length and the amount survives the variable-length printer.
 */
module CodecAgreement {
  import opened Bytes
  import opened EventCodec
  import opened RegistryCodec

  // ---------- inbound, from Go to the contract ----------

  function Meta(symbol: bytes, name: bytes): bytes {
    Sized(symbol) + Sized(name)
  }

  lemma Advance(raw: bytes, offset: nat, field: bytes, rest: bytes)
    requires offset <= |raw| && raw[offset..] == field + rest
    ensures Slice(raw, offset, |field|) == Some(field)
    ensures offset + |field| <= |raw| && raw[offset + |field|..] == rest
  {
    assert raw[offset..offset + |field|] == raw[offset..][..|field|] == field;
    assert raw[offset + |field|..] == raw[offset..][|field|..] == rest;
  }

  lemma AdvanceSized(raw: bytes, offset: nat, b: bytes, rest: bytes)
    requires offset <= |raw| && |b| <= INT_MAX && raw[offset..] == Sized(b) + rest
    ensures ToUint(raw, offset, 2) == Some(|b|) && Slice(raw, offset + 2, |b|) == Some(b)
    ensures offset + 2 + |b| <= |raw| && raw[offset + 2 + |b|..] == rest
  {
    Pow256Values();
    Assoc(ToBE(|b|, 2), b, rest);
    Advance(raw, offset, ToBE(|b|, 2), b + rest);
    FromToBE(|b|, 2);
    Advance(raw, offset + 2, b, rest);
  }

  lemma InputOfMeta(symbol: bytes, name: bytes, input: bytes)
    requires |symbol| <= INT_MAX && |name| <= INT_MAX
    ensures ParseEventInput(Meta(symbol, name) + input) == Some((symbol, name, input))
  {
    var extra := Meta(symbol, name) + input;
    assert extra == extra[0..];
    Assoc(Sized(symbol), Sized(name), input);
    AdvanceSized(extra, 0, symbol, Sized(name) + input);
    AdvanceSized(extra, 2 + |symbol|, name, input);
    assert input + [] == input;
    Advance(extra, 4 + |symbol| + |name|, input, []);
  }

  lemma FieldAt(raw: bytes, offset: nat, f: seq<bytes>, k: nat)
    requires k < |f| && offset <= |raw| && raw[offset..] == Cat(f, k)
    ensures Slice(raw, offset, |f[k]|) == Some(f[k])
    ensures ToUint(raw, offset, |f[k]|) == Some(FromBE(f[k]))
    ensures offset + |f[k]| <= |raw| && raw[offset + |f[k]|..] == Cat(f, k + 1)
  {
    Advance(raw, offset, f[k], Cat(f, k + 1));
  }

  lemma SizeAt(raw: bytes, offset: nat, f: seq<bytes>, k: nat)
    requires k + 1 < |f| && offset <= |raw| && raw[offset..] == Cat(f, k)
    requires |f[k + 1]| <= INT_MAX && f[k] == ToBE(|f[k + 1]|, 2)
    ensures ToUint(raw, offset, 2) == Some(|f[k + 1]|) && Slice(raw, offset + 2, |f[k + 1]|) == Some(f[k + 1])
    ensures offset + 2 + |f[k + 1]| <= |raw| && raw[offset + 2 + |f[k + 1]|..] == Cat(f, k + 2)
  {
    Pow256Values();
    FieldAt(raw, offset, f, k);
    FromToBE(|f[k + 1]|, 2);
    FieldAt(raw, offset + 2, f, k + 1);
  }

  lemma AssetAt(raw: bytes, f: seq<bytes>)
    requires |f| == 11 && 24 <= |raw| && raw[24..] == Cat(f, 2)
    requires |f[2]| == 16 && FromBE(f[2]) > 0 && |f[4]| <= 32 && f[3] == ToBE(|f[4]|, 2)
    ensures ParseEventAsset(raw, 24) == Some((42 + |f[4]|, FromBE(f[2]), FromBE(f[4])))
    ensures 42 + |f[4]| <= |raw| && raw[42 + |f[4]|..] == Cat(f, 5)
  {
    hide Cat, Slice, ToUint, ToBE, FromBE;
    FieldAt(raw, 24, f, 2);
    SizeAt(raw, 40, f, 3);
    FromBEPadded(32 - |f[4]|, f[4]);
  }

  lemma ExtraAt(raw: bytes, offset: nat, f: seq<bytes>)
    requires |f| == 11 && offset <= |raw| && raw[offset..] == Cat(f, 5)
    requires |f[6]| <= INT_MAX && f[5] == ToBE(|f[6]|, 2) && |f[7]| == 8
    ensures ParseEventExtra(raw, offset) == Some((offset + 2 + |f[6]| + 8, f[6], FromBE(f[7])))
    ensures offset + 2 + |f[6]| + 8 <= |raw| && raw[offset + 2 + |f[6]| + 8..] == Cat(f, 8)
  {
    hide Cat, Slice, ToUint, ToBE, FromBE;
    SizeAt(raw, offset, f, 5);
    FieldAt(raw, offset + 2 + |f[6]|, f, 7);
  }

  lemma UserAt(raw: bytes, offset: nat, f: seq<bytes>, members: seq<uuid>, threshold: nat)
    requires |f| == 11 && offset <= |raw| && raw[offset..] == Cat(f, 8)
    requires f[8] == MemberBlock(members, threshold) && |members| <= MEMBERS_MAX
    ensures ParseEventUser(raw, offset) == Some((offset + |f[8]|, f[8]))
    ensures offset + |f[8]| <= |raw| && raw[offset + |f[8]|..] == Cat(f, 9)
  {
    Pow256Values();
    FieldAt(raw, offset, f, 8);
    assert raw[offset..offset + 2] == raw[offset..offset + |f[8]|][..2] == ToBE(|members|, 2);
    FromToBE(|members|, 2);
  }

  lemma SignatureAt(raw: bytes, offset: nat, f: seq<bytes>)
    requires |f| == 11 && offset <= |raw| && raw[offset..] == Cat(f, 9)
    requires |f[9]| == 2 && |f[10]| == 64
    ensures |raw| == offset + 66
    ensures ToUint(raw, offset + 2, 32) == Some(FromBE(f[10][..32])) && ToUint(raw, offset + 34, 32) == Some(FromBE(f[10][32..]))
  {
    FieldAt(raw, offset, f, 9);
    FieldAt(raw, offset + 2, f, 10);
    CatEnd(f, []);
    var low, high := f[10][..32], f[10][32..];
    assert f[10] == low + high;
    assert raw[offset + 2..] == low + high;
    Advance(raw, offset + 2, low, high);
    assert high == high + [];
    Advance(raw, offset + 34, high, []);
  }

  /** Two lists that share their fields `k .. n - 1` write the same bytes there. */
  lemma {:induction false} CommonHead(f: seq<bytes>, g: seq<bytes>, k: nat, n: nat) returns (head: bytes)
    requires k <= n <= |f| && n <= |g| && (forall i :: k <= i < n ==> f[i] == g[i])
    ensures Cat(f, k) == head + Cat(f, n) && Cat(g, k) == head + Cat(g, n)
    decreases n - k
  {
    if k == n {
      head := [];
    } else {
      var rest := CommonHead(f, g, k + 1, n);
      head := f[k] + rest;
      Assoc(f[k], rest, Cat(f, n));
      Assoc(f[k], rest, Cat(g, n));
    }
  }

  /** Cutting at the signature and closing with an empty one gives the bytes that were signed. */
  lemma MessageOfEncoded(e: Event, o3: nat)
    requires o3 <= |Encoded(e)| && Encoded(e)[o3..] == Cat(Fields(e), 9)
    ensures Encoded(e)[..o3] + Zeros(2) == Encoded(Unsigned(e))
  {
    var f, g := Fields(e), Fields(Unsigned(e));
    var head := CommonHead(f, g, 0, 9);
    CatEnd(g, []);
    ZeroWord();
    assert Cat(g, 9) == Zeros(2);
    assert |head| == o3 && Encoded(e)[..o3] == head;
  }

  function ReadAs(e: Event, symbol: bytes, name: bytes, input: bytes): Inbound
    requires |e.signature| == 64
  {
    Inbound(e.nonce, FromBE(e.asset), e.amount, e.extra, e.timestamp, MemberBlock(e.members, e.threshold),
            symbol, name, input, (FromBE(e.signature[..32]), FromBE(e.signature[32..])), Encoded(Unsigned(e)))
  }

  lemma EncodedSize(e: Event)
    ensures |Encoded(e)| == 58 + |Minimal(e.amount)| + |e.extra| + 16 * |e.members| + |e.signature|
  {
    var f := Fields(e);
    forall k | 0 <= k < 11 ensures |Cat(f, k)| == |f[k]| + |Cat(f, k + 1)| {
    }
    hide Cat;
    CatEnd(f, []);
    assert |Cat(f, 8)| == |f[8]| + |f[9]| + |f[10]|;
    assert |Cat(f, 5)| == |f[5]| + |f[6]| + |f[7]| + |Cat(f, 8)|;
    assert |Cat(f, 2)| == |f[2]| + |f[3]| + |f[4]| + |Cat(f, 5)|;
    assert |Cat(f, 0)| == |f[0]| + |f[1]| + |Cat(f, 2)|;
  }

  /** The contract reads a signed Go event back completely, and hashes exactly what the members signed. */
  lemma ContractReadsGoEvent(e: Event, symbol: bytes, name: bytes, input: bytes)
    requires Encodable(e) && |e.signature| == 64
    requires e.amount < U256 && FromBE(e.asset) > 0
    requires e.extra == Meta(symbol, name) + input
    ensures ParseInbound(FromBE(e.process), Encoded(e)) ==
      if |Encoded(e)| < MIN_EVENT_SIZE then None else Some(ReadAs(e, symbol, name, input))
    ensures |e.members| >= 1 ==> |Encoded(e)| >= MIN_EVENT_SIZE
  {
    hide Cat, ToBE, FromBE, ToUint, Minimal, Pow256, ParseEventAsset, ParseEventExtra, ParseEventUser, ParseEventInput;
    Pow256Values();
    Pow256Words();
    MinimalLength(e.amount, 32);
    FromMinimal(e.amount);
    FromToBE(e.nonce, 8);
    FromToBE(e.timestamp, 8);
    InputOfMeta(symbol, name, input);
    EncodedSize(e);
    var raw, f := Encoded(e), Fields(e);
    assert raw[0..] == raw;
    FieldAt(raw, 0, f, 0);
    FieldAt(raw, 16, f, 1);
    AssetAt(raw, f);
    var o1 := 42 + |f[4]|;
    ExtraAt(raw, o1, f);
    var o2 := o1 + 2 + |f[6]| + 8;
    UserAt(raw, o2, f, e.members, e.threshold);
    var o3 := o2 + |f[8]|;
    SignatureAt(raw, o3, f);
    MessageOfEncoded(e, o3);
  }

  // ---------- inbound, from any accepted bytes back to Go ----------

  lemma TakeAt(b: bytes, offset: nat, n: nat)
    requires offset + n <= |b|
    ensures Take(b[offset..], n) == Some((b[offset..offset + n], b[offset + n..]))
  {
    assert b[offset..][..n] == b[offset..offset + n] && b[offset..][n..] == b[offset + n..];
  }

  lemma {:induction false} ReadMembersAt(b: bytes, offset: nat, count: nat) returns (ids: seq<uuid>)
    requires offset + 16 * count <= |b|
    ensures ReadMembers(b[offset..], count) == Some((ids, b[offset + 16 * count..]))
    ensures |ids| == count && Flatten(ids) == b[offset..offset + 16 * count]
    decreases count
  {
    if count == 0 {
      ids := [];
    } else {
      TakeAt(b, offset, 16);
      var first: uuid := b[offset..offset + 16];
      var others := ReadMembersAt(b, offset + 16, count - 1);
      ids := [first] + others;
      assert ids[1..] == others;
      assert b[offset..offset + 16 * count] == first + b[offset + 16..offset + 16 + 16 * (count - 1)];
    }
  }

  /** The contract's member block, taken as bytes, is what the Go decoder reads there. */
  lemma ReadBlockAt(b: bytes, offset: nat, count: nat) returns (members: seq<uuid>, threshold: nat)
    requires offset + 4 + 16 * count <= |b| && FromBE(b[offset..offset + 2]) == count
    ensures ReadMemberBlock(b[offset..]) == Some(((members, threshold), b[offset + 4 + 16 * count..]))
    ensures |members| == count <= INT_MAX && threshold <= INT_MAX
    ensures MemberBlock(members, threshold) == b[offset..offset + 4 + 16 * count]
  {
    var o := offset + 2 + 16 * count;
    TakeAt(b, offset, 2);
    members := ReadMembersAt(b, offset + 2, count);
    TakeAt(b, o, 2);
    threshold := FromBE(b[o..o + 2]);
    Pow256Values();
    FromBEBound(b[offset..offset + 2]);
    FromBEBound(b[o..o + 2]);
    ToFromBE(b[offset..offset + 2]);
    ToFromBE(b[o..o + 2]);
    assert b[offset..o + 2] == b[offset..offset + 2] + b[offset + 2..o] + b[o..o + 2];
  }

  /** Where the fields of accepted bytes lie. */
  datatype Layout = Layout(amountSize: nat, extraSize: nat, count: nat) {
    function O1(): nat { 42 + amountSize }
    function O2(): nat { O1() + 2 + extraSize + 8 }
    function O3(): nat { O2() + 4 + 16 * count }
  }

  lemma AcceptedLayout(pid: nat, raw: bytes) returns (l: Layout)
    requires ParseInbound(pid, raw).Some?
    ensures |raw| == l.O3() + 66
    ensures var r, o1, o2, o3 := ParseInbound(pid, raw).value, l.O1(), l.O2(), l.O3();
      && FromBE(raw[0..16]) == pid && FromBE(raw[16..24]) == r.nonce && FromBE(raw[24..40]) == r.asset
      && l.amountSize == FromBE(raw[40..42]) && FromBE(raw[42..o1]) == r.amount
      && l.extraSize == FromBE(raw[o1..o1 + 2]) && raw[o1 + 2..o1 + 2 + l.extraSize] == r.extra
      && FromBE(raw[o2 - 8..o2]) == r.timestamp
      && l.count == FromBE(raw[o2..o2 + 2]) && raw[o2..o3] == r.block
      && r.message == raw[..o3] + Zeros(2)
  {
    hide FromBE, ParseEventInput;
    var a := FromBE(raw[40..42]);
    var digits := raw[42..42 + a];
    FromBEPadded(32 - a, digits);
    var x := FromBE(raw[42 + a..44 + a]);
    var n := FromBE(raw[52 + a + x..54 + a + x]);
    l := Layout(a, x, n);
  }

  lemma Shared(raw: bytes, msg: bytes, end: nat, offset: nat, n: nat)
    requires offset + n <= end <= |raw| && end <= |msg| && msg[..end] == raw[..end]
    ensures msg[offset..offset + n] == raw[offset..offset + n]
  {
    assert msg[offset..offset + n] == msg[..end][offset..offset + n];
    assert raw[offset..offset + n] == raw[..end][offset..offset + n];
  }

  lemma ReadUint64At(b: bytes, offset: nat) returns (n: uint64)
    requires offset + 8 <= |b|
    ensures ReadUint64(b[offset..]) == Some((n, b[offset + 8..])) && n == FromBE(b[offset..offset + 8])
  {
    TakeAt(b, offset, 8);
    FromBEBound(b[offset..offset + 8]);
    Pow256Values();
    n := FromBE(b[offset..offset + 8]);
  }

  lemma ReadSizedAt(b: bytes, offset: nat, size: nat)
    requires offset + 2 + size <= |b| && FromBE(b[offset..offset + 2]) == size
    ensures ReadSized(b[offset..]) == Some((b[offset + 2..offset + 2 + size], b[offset + 2 + size..]))
  {
    TakeAt(b, offset, 2);
    TakeAt(b, offset + 2, size);
  }

  /** A buffer with this layout and an empty signature decodes into the slices the layout names. */
  lemma ParsedAt(b: bytes, l: Layout) returns (e: Event)
    requires |b| == l.O3() + 2 && b[l.O3()..] == Zeros(2)
    requires FromBE(b[40..42]) == l.amountSize && FromBE(b[l.O1()..l.O1() + 2]) == l.extraSize
    requires FromBE(b[l.O2()..l.O2() + 2]) == l.count
    ensures Parsed(b) == Some((e, []))
    ensures e.process == b[0..16] && e.nonce == FromBE(b[16..24]) && e.asset == b[24..40] && e.amount == FromBE(b[42..l.O1()])
    ensures e.extra == b[l.O1() + 2..l.O1() + 2 + l.extraSize] && e.timestamp == FromBE(b[l.O2() - 8..l.O2()])
    ensures MemberBlock(e.members, e.threshold) == b[l.O2()..l.O3()] && |e.members| <= INT_MAX && e.threshold <= INT_MAX
    ensures e.signature == []
  {
    hide FromBE, Take, ReadUint64, ReadSized, ReadMemberBlock, MemberBlock;
    var o1, o2, o3 := l.O1(), l.O2(), l.O3();
    assert b[0..] == b;
    TakeAt(b, 0, 16);
    var nonce := ReadUint64At(b, 16);
    TakeAt(b, 24, 16);
    ReadSizedAt(b, 40, l.amountSize);
    ReadSizedAt(b, o1, l.extraSize);
    var timestamp := ReadUint64At(b, o2 - 8);
    var members, threshold := ReadBlockAt(b, o2, l.count);
    EmptySizedAt(b, o3);
    e := Event(b[0..16], b[24..40], members, threshold, FromBE(b[42..o1]), b[o1 + 2..o1 + 2 + l.extraSize],
               timestamp, nonce, []);
  }

  lemma EmptySizedAt(b: bytes, offset: nat)
    requires offset + 2 == |b| && b[offset..] == Zeros(2)
    ensures ReadSized(b[offset..]) == Some(([], []))
  {
    FromBEZeros(2);
    assert b[offset..offset + 2] == Zeros(2);
    ReadSizedAt(b, offset, 0);
  }

  /** Whatever bytes the contract accepts, the Go decoder reads the same fields out of the signed message. */
  lemma GoReadsSignedMessage(pid: nat, raw: bytes) returns (e: Event)
    requires ParseInbound(pid, raw).Some?
    ensures var r := ParseInbound(pid, raw).value;
      && Parsed(r.message) == Some((e, []))
      && FromBE(e.process) == pid && e.nonce == r.nonce && FromBE(e.asset) == r.asset && e.amount == r.amount
      && e.extra == r.extra && e.timestamp == r.timestamp && e.signature == []
      && MemberBlock(e.members, e.threshold) == r.block && |e.members| <= INT_MAX && e.threshold <= INT_MAX
  {
    hide ParseInbound, FromBE, Parsed, MemberBlock;
    var l := AcceptedLayout(pid, raw);
    var o1, o2, o3 := l.O1(), l.O2(), l.O3();
    var msg := raw[..o3] + Zeros(2);
    assert msg[..o3] == raw[..o3] && msg[o3..] == Zeros(2);
    Shared(raw, msg, o3, 0, 16);
    Shared(raw, msg, o3, 16, 8);
    Shared(raw, msg, o3, 24, 16);
    Shared(raw, msg, o3, 40, 2);
    Shared(raw, msg, o3, 42, l.amountSize);
    Shared(raw, msg, o3, o1, 2);
    Shared(raw, msg, o3, o1 + 2, l.extraSize);
    Shared(raw, msg, o3, o2 - 8, 8);
    Shared(raw, msg, o3, o2, 2);
    Shared(raw, msg, o3, o2, 4 + 16 * l.count);
    e := ParsedAt(msg, l);
  }

  // ---------- outbound ----------

  lemma OneDigit(b: byte)
    ensures FromBE([b]) == b
  {
    assert [b][..0] == [];
  }

  lemma LeadingDigit(s: bytes)
    requires s != []
    ensures FromBE(s) == s[0] * Pow256(|s| - 1) + FromBE(s[1..])
    ensures FromBE(s[1..]) < Pow256(|s| - 1)
  {
    hide FromBE, Pow256;
    assert s == [s[0]] + s[1..];
    FromBEConcat([s[0]], s[1..]);
    FromBEBound(s[1..]);
    OneDigit(s[0]);
  }

  lemma {:induction false} PositiveDigit(s: bytes)
    requires s != [] && s[0] > 0
    ensures FromBE(s) > 0
  {
    if |s| > 1 {
      PositiveDigit(s[..|s| - 1]);
    }
  }

  /** The printer keeps the amount, except that it loses the top byte of a full-width one. */
  lemma VarBytesValue(x: nat)
    requires x < U256
    ensures FromBE(VarBytes(x)) == if x % U248 == 0 then x else x % U248
    ensures 1 <= |VarBytes(x)| <= 32
  {
    hide ToBE, Pow256, FromBE;
    Pow256Words();
    FromToBE(x, 32);
    var b := ToBE(x, 32);
    LeadingDigit(b);
    var low := FromBE(b[1..]);
    assert x == b[0] * U248 + low && low < U248;
    assert x % U248 == low;
    var k := VarOffset(b, 1);
    if k == 0 {
      assert b[1..] == Zeros(31);
      FromBEZeros(31);
      assert b[0..] == b;
    } else {
      assert b[1..] == Zeros(k - 1) + b[k..];
      FromBEPadded(k - 1, b[k..]);
      PositiveDigit(b[k..]);
    }
  }

  predicate AmountSurvives(x: nat) {
    x < U248 || x % U248 == 0
  }

  lemma DecodedExtraFits(b: bytes)
    requires Decoded(b).Some?
    ensures |Decoded(b).value.extra| <= INT_MAX
  {
    var b3 := b[40..];
    var b4 := ReadSized(b3).value.1;
    FromBEBound(b4[..2]);
    Pow256Values();
  }

  function Sent(pid: nat, nonce: uint64, members: seq<uuid>, threshold: nat, asset: nat, amount: nat, extra: bytes, timestamp: uint64): Event {
    Event(ToBE(pid, 16), ToBE(asset, 16), members, threshold, amount, extra, timestamp, nonce, [])
  }

  /** If the extra fits its length field, the Go decoder gets everything back, the amount as the printer wrote it. */
  lemma GoReadsTransaction(pid: nat, nonce: uint64, members: seq<uuid>, threshold: nat, asset: nat, amount: nat,
                           extra: bytes, timestamp: uint64)
    requires amount < U256 && |members| <= INT_MAX && threshold <= INT_MAX && |Truncated(pid, extra)| <= INT_MAX
    ensures Decoded(Transaction(pid, nonce, MemberBlock(members, threshold), asset, amount, extra, timestamp)) ==
      Some(Sent(pid, nonce, members, threshold, asset, FromBE(VarBytes(amount)), Truncated(pid, extra), timestamp))
  {
    hide ToBE, FromBE, VarBytes, Parsed, Cat, Truncated, MemberBlock;
    VarBytesValue(amount);
    var f := OutFields(pid, nonce, MemberBlock(members, threshold), asset, amount, Truncated(pid, extra), timestamp);
    ParsedFields(f, ToBE(pid, 16), nonce, ToBE(asset, 16), timestamp, members, threshold, []);
    assert Cat(f, 0) + [] == Cat(f, 0);
  }

  /** The outbound round trip and exactly when it holds. */
  lemma OutboundExactly(pid: nat, nonce: uint64, members: seq<uuid>, threshold: nat, asset: nat, amount: nat,
                        extra: bytes, timestamp: uint64)
    requires amount < U256 && |members| <= INT_MAX && threshold <= INT_MAX
    ensures Decoded(Transaction(pid, nonce, MemberBlock(members, threshold), asset, amount, extra, timestamp)) ==
        Some(Sent(pid, nonce, members, threshold, asset, amount, Truncated(pid, extra), timestamp))
      <==> |Truncated(pid, extra)| <= INT_MAX && AmountSurvives(amount)
  {
    hide ToBE, FromBE, VarBytes, Decoded, Transaction, Truncated, MemberBlock;
    var raw := Transaction(pid, nonce, MemberBlock(members, threshold), asset, amount, extra, timestamp);
    if |Truncated(pid, extra)| <= INT_MAX {
      GoReadsTransaction(pid, nonce, members, threshold, asset, amount, extra, timestamp);
      VarBytesValue(amount);
    } else if Decoded(raw).Some? {
      DecodedExtraFits(raw);
    }
  }

  /** A payment to the user created by an accepted event goes to that event's members and threshold. */
  lemma ReplyReachesSender(pid: nat, raw: bytes, nonce: uint64, asset: nat, amount: nat, extra: bytes, timestamp: uint64)
      returns (e: Event)
    requires ParseInbound(pid, raw).Some?
    requires amount < U256 && AmountSurvives(amount) && |Truncated(pid, extra)| <= INT_MAX
    ensures Decoded(ParseInbound(pid, raw).value.message) == Some(e)
    ensures Decoded(Transaction(pid, nonce, ParseInbound(pid, raw).value.block, asset, amount, extra, timestamp)) ==
      Some(Sent(pid, nonce, e.members, e.threshold, asset, amount, Truncated(pid, extra), timestamp))
  {
    e := GoReadsSignedMessage(pid, raw);
    OutboundExactly(pid, nonce, e.members, e.threshold, asset, amount, extra, timestamp);
  }
}
