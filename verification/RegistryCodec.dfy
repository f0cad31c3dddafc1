/**
  The byte-level parser and printer of the registry contract, and their
  agreement with the Go codec. `None` is a revert. `Slice` and `ToUint` stand for
  the bounds-checked readers of the byte library.
 */
module RegistryCodec {
  import opened Bytes
  import opened EventCodec

  const MIN_EVENT_SIZE := 141
  const STORAGE_EXTRA_SIZE := 68

  function Slice(raw: bytes, start: nat, length: nat): (r: Option<bytes>)
    ensures r.Some? ==> |r.value| == length
  {
    if start + length <= |raw| then Some(raw[start..start + length]) else None
  }

  function ToUint(raw: bytes, start: nat, width: nat): Option<nat> {
    var digits :- Slice(raw, start, width);
    Some(FromBE(digits))
  }

  // ---------- inbound: the parser ----------

  /** Offset behind the amount, asset id, amount. */
  function ParseEventAsset(raw: bytes, offset: nat): Option<(nat, nat, nat)> {
    var id :- ToUint(raw, offset, 16);
    var size :- ToUint(raw, offset + 16, 2);
    if id == 0 || size > 32 then None else
    var digits :- Slice(raw, offset + 18, size);
    Some((offset + 18 + size, id, FromBE(Zeros(32 - size) + digits)))
  }

  /** Offset behind the timestamp, extra, timestamp. */
  function ParseEventExtra(raw: bytes, offset: nat): Option<(nat, bytes, nat)> {
    var size :- ToUint(raw, offset, 2);
    var extra :- Slice(raw, offset + 2, size);
    var timestamp :- ToUint(raw, offset + 2 + size, 8);
    Some((offset + 2 + size + 8, extra, timestamp))
  }

  /** Offset behind the threshold, member block. The size is checked 16-bit arithmetic. */
  function ParseEventUser(raw: bytes, offset: nat): Option<(nat, bytes)> {
    var size :- ToUint(raw, offset, 2);
    if 2 + size * 16 + 2 > 0xffff then None else
    var block :- Slice(raw, offset, 2 + size * 16 + 2);
    Some((offset + 2 + size * 16 + 2, block))
  }

  /** Symbol, name and input of an asset process's extra. */
  function ParseEventInput(extra: bytes): Option<(bytes, bytes, bytes)> {
    var size :- ToUint(extra, 0, 2);
    var symbol :- Slice(extra, 2, size);
    var size' :- ToUint(extra, 2 + size, 2);
    var name :- Slice(extra, 4 + size, size');
    var input :- Slice(extra, 4 + size + size', |extra| - (4 + size + size'));
    Some((symbol, name, input))
  }

  datatype Inbound = Inbound(
    nonce: nat,
    asset: nat,
    amount: nat,
    extra: bytes,
    timestamp: nat,
    block: bytes,
    symbol: bytes,
    name: bytes,
    input: bytes,
    sig: (nat, nat),
    message: bytes)

  /** The parsing half of `mixin`, up to the signature check. */
  function ParseInbound(pid: nat, raw: bytes): Option<Inbound> {
    if |raw| < MIN_EVENT_SIZE then None else
    var id :- ToUint(raw, 0, 16);
    if id != pid then None else
    var nonce :- ToUint(raw, 16, 8);
    var (o1, asset, amount) :- ParseEventAsset(raw, 24);
    var (o2, extra, timestamp) :- ParseEventExtra(raw, o1);
    var (o3, block) :- ParseEventUser(raw, o2);
    var (symbol, name, input) :- ParseEventInput(extra);
    var x :- ToUint(raw, o3 + 2, 32);
    var y :- ToUint(raw, o3 + 34, 32);
    var signed :- Slice(raw, 0, o3);
    if |raw| != o3 + 66 then None else
    Some(Inbound(nonce, asset, amount, extra, timestamp, block, symbol, name, input, (x, y), signed + Zeros(2)))
  }

  // ---------- outbound: the printer ----------

  /** `bytes32` of `x` from the first non-zero byte after the top one; from the top if there is none. */
  function VarOffset(b: bytes, i: nat): (k: nat)
    requires 1 <= i <= |b|
    ensures k == 0 || i <= k < |b|
    ensures forall j :: i <= j < (if k == 0 then |b| else k) ==> b[j] == 0
    ensures k != 0 ==> b[k] != 0
    decreases |b| - i
  {
    if i == |b| then 0 else if b[i] > 0 then i else VarOffset(b, i + 1)
  }

  function VarBytes(x: nat): bytes {
    ToBE(x, 32)[VarOffset(ToBE(x, 32), 1)..]
  }

  /** `uint256ToVarBytes`: the offset is set at the first non-zero byte seen while it is still zero. */
  method Uint256ToVarBytes(x: nat) returns (c: bytes, size: nat)
    ensures c == VarBytes(x) && size == |c|
  {
    hide ToBE;
    var b := ToBE(x, 32);
    var a := new byte[32](_ => 0);
    var offset := 0;
    var i := 0;
    while i < 32
      invariant 0 <= i <= 32
      invariant a[..i] == b[..i]
      invariant offset == 0 || 1 <= offset < i
      invariant if offset != 0 || i == 0 then VarOffset(b, 1) == offset || i == 0 else VarOffset(b, 1) == VarOffset(b, i)
    {
      a[i] := b[i];
      if a[i] > 0 && offset == 0 {
        offset := i;
      }
      i := i + 1;
    }
    c, size := a[offset..], 32 - offset;
    assert a[..] == b;
  }

  /** What `sendMixinTransaction` sends on: data held by a storage contract is cut off after its reference. */
  function Truncated(pid: nat, extra: bytes): bytes {
    if NamesStorage(pid, extra) then extra[..STORAGE_EXTRA_SIZE] else extra
  }

  predicate NamesStorage(pid: nat, extra: bytes) {
    |extra| >= STORAGE_EXTRA_SIZE && FromBE(extra[..16]) == pid
  }

  /** The storage contract an extra names, and the key of its data there */
  function Reference(extra: bytes): (Address, nat)
    requires |extra| >= STORAGE_EXTRA_SIZE
  {
    (FromBE(extra[16..36]), FromBE(extra[36..68]))
  }

  /** The write that hands the cut-off data over */
  datatype StorageWrite = StorageWrite(at: (Address, nat), data: bytes)

  function Handed(pid: nat, extra: bytes): Option<StorageWrite> {
    if NamesStorage(pid, extra) then Some(StorageWrite(Reference(extra), extra[STORAGE_EXTRA_SIZE..])) else None
  }

  /** What is sent on still names the place the data went to: sent back as an input, it is read from there. */
  lemma CutKeepsReference(pid: nat, extra: bytes)
    requires NamesStorage(pid, extra)
    ensures var cut := Truncated(pid, extra);
      && |cut| == STORAGE_EXTRA_SIZE && NamesStorage(pid, cut)
      && Reference(cut) == Handed(pid, extra).value.at && cut + Handed(pid, extra).value.data == extra
  {
    hide FromBE;
    var cut := extra[..STORAGE_EXTRA_SIZE];
    assert cut[..16] == extra[..16] && cut[16..36] == extra[16..36] && cut[36..68] == extra[36..68];
  }

  /** The outbound fields in wire order. The extra's length is cast to 16 bits; the signature is empty. */
  function OutFields(pid: nat, nonce: nat, receiver: bytes, asset: nat, amount: nat, extra: bytes, timestamp: nat): (f: seq<bytes>)
    ensures |f| == 11
  {
    var digits := VarBytes(amount);
    [ToBE(pid, 16), ToBE(nonce, 8), ToBE(asset, 16), ToBE(|digits|, 2), digits, ToBE(|extra|, 2), extra,
     ToBE(timestamp, 8), receiver, ToBE(0, 2), []]
  }

  function Transaction(pid: nat, nonce: nat, receiver: bytes, asset: nat, amount: nat, extra: bytes, timestamp: nat): bytes {
    Cat(OutFields(pid, nonce, receiver, asset, amount, Truncated(pid, extra), timestamp), 0)
  }

  /** `buildMixinTransaction`, with the write it makes to a storage contract. */
  method BuildMixinTransaction(pid: nat, nonce: nat, receiver: bytes, asset: nat, amount: nat, extra: bytes, timestamp: nat)
      returns (raw: bytes, write: Option<StorageWrite>)
    ensures raw == Transaction(pid, nonce, receiver, asset, amount, extra, timestamp)
    ensures write == Handed(pid, extra)
  {
    hide Cat, ToBE, VarBytes, FromBE;
    var cut := extra;
    write := None;
    if NamesStorage(pid, extra) {
      write := Some(StorageWrite(Reference(extra), extra[STORAGE_EXTRA_SIZE..]));
      cut := extra[..STORAGE_EXTRA_SIZE];
    }
    var digits, size := Uint256ToVarBytes(amount);
    ghost var f := OutFields(pid, nonce, receiver, asset, amount, cut, timestamp);
    ghost var whole := Cat(f, 0);
    raw := [];
    Emit(raw, f, 0, whole);
    raw := raw + ToBE(pid, 16);
    Emit(raw, f, 1, whole);
    raw := raw + ToBE(nonce, 8);
    Emit(raw, f, 2, whole);
    raw := raw + ToBE(asset, 16);
    Emit(raw, f, 3, whole);
    raw := raw + ToBE(size, 2);
    Emit(raw, f, 4, whole);
    raw := raw + digits;
    Emit(raw, f, 5, whole);
    raw := raw + ToBE(|cut|, 2);
    Emit(raw, f, 6, whole);
    raw := raw + cut;
    Emit(raw, f, 7, whole);
    raw := raw + ToBE(timestamp, 8);
    Emit(raw, f, 8, whole);
    raw := raw + receiver;
    Emit(raw, f, 9, whole);
    ZeroWord();
    raw := raw + Zeros(2);
    Emit(raw, f, 10, whole);
    CatEnd(f, raw);
  }

  lemma ZeroWord()
    ensures ToBE(0, 2) == Zeros(2)
  {
  }
}
