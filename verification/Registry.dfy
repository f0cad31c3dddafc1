/**
  The registry and the contracts around it as one transition system.

  A call may make further calls: `mixin` runs the user contract, which calls
  processes, which may call anything again, `mixin` included. A call tree is a
  value; a reverted call leaves the world as it was. Signature checks, contract
  addresses and what storage contracts hold are parameters.
 */
module Registry {
  import opened Bytes
  import opened Sums
  import opened AssetToken
  import opened RegistryCodec
  import opened UserRun

  type GroupKey = (nat, nat, nat, nat)
  type Sig = (nat, nat)

  datatype Env = Env(
    pid: nat,
    genesis: GroupKey,
    verify: (Sig, GroupKey, bytes) -> bool,
    userKey: bytes -> nat,
    userAddress: bytes -> Address,
    assetAddress: (nat, bytes, bytes) -> Address)
  {
    /** Hashing and address derivation do not collide, and hashed keys are not small numbers. */
    ghost predicate Ideal() {
      && (forall m, m' :: userKey(m) == userKey(m') ==> m == m')
      && (forall m :: userKey(m) >= U128)
      && (forall m, m' :: userAddress(m) == userAddress(m') ==> m == m')
      && (forall i, s, n, i', s', n' {:trigger assetAddress(i, s, n), assetAddress(i', s', n')} ::
           assetAddress(i, s, n) == assetAddress(i', s', n') ==> i == i')
    }
  }

  /** The contract's events, with what was checked before they were emitted. */
  datatype Log =
    | MixinEvent(nonce: nat, user: Address, asset: Address, amount: nat, extra: bytes, timestamp: nat, id: nat, sig: Sig, message: bytes)
    | MixinTransaction(nonce: nat, receiver: bytes, asset: nat, amount: nat, extra: bytes)
    | Halted(state: bool, sig: Sig, atInbound: nat)
    | Iterated(from: GroupKey, to: GroupKey, message: bytes, sig1: Sig, sig2: Sig)

  datatype World = World(
    group: GroupKey,
    inbound: nat,
    outbound: nat,
    halted: bool,
    custody: map<nat, nat>,
    users: map<Address, bytes>,
    assets: map<Address, nat>,
    contracts: map<nat, Address>,
    tokens: map<Address, Token>,
    log: seq<Log>)

  function Deployed(env: Env): World {
    World(env.genesis, 0, 0, false, map[], map[], map[], map[], map[], [])
  }

  // ---------- factory ----------

  function GetOrCreateAsset(env: Env, w: World, id: nat, symbol: bytes, name: bytes): (World, Address) {
    if id in w.contracts then (w, w.contracts[id])
    else
      var a := env.assetAddress(id, symbol, name);
      if a in w.assets then (w, a)
      else (w.(assets := w.assets[a := id], contracts := w.contracts[id := a], tokens := w.tokens[a := NEW_TOKEN]), a)
  }

  function GetOrCreateUser(env: Env, w: World, members: bytes): (World, Address) {
    var key := env.userKey(members);
    if key in w.contracts then (w, w.contracts[key])
    else
      var u := env.userAddress(members);
      if u in w.users then (w, u)
      else (w.(users := w.users[u := members], contracts := w.contracts[key := u]), u)
  }

  // ---------- custody ----------

  function WithToken(w: World, a: Address, t: Token): World {
    w.(tokens := w.tokens[a := t])
  }

  /** `sendMixinTransaction`; `accepts` says whether a storage contract named in the extra takes the write, without which it reverts. */
  function SendTransaction(env: Env, w: World, user: Address, asset: Address, amount: nat, extra: bytes, accepts: bool): Option<World> {
    if user !in w.users || asset !in w.assets then None else
    var id := w.assets[asset];
    var balance := Get(w.custody, id);
    if (NamesStorage(env.pid, extra) && !accepts) || balance < amount || w.outbound + 1 >= U64 then None
    else Some(w.(
      custody := w.custody[id := balance - amount],
      outbound := w.outbound + 1,
      log := w.log + [MixinTransaction(w.outbound, w.users[user], id, amount, Truncated(env.pid, extra))]))
  }

  function BurnAndSend(env: Env, w: World, user: Address, asset: Address, amount: nat, extra: bytes, accepts: bool): Option<World> {
    if asset !in w.tokens then None else
    var t :- Burned(w.tokens[asset], user, amount);
    SendTransaction(env, WithToken(w, asset, t), user, asset, amount, extra, accepts)
  }

  function Claim(env: Env, w: World, sender: Address, asset: Address, amount: nat): Option<World> {
    if sender !in w.users || asset !in w.assets then None
    else BurnAndSend(env, w, sender, asset, amount, [], true)
  }

  function RegistryBurn(env: Env, w: World, sender: Address, user: Address, amount: nat, extra: bytes, accepts: bool): Option<World> {
    if sender !in w.assets then None
    else if user !in w.users then Some(w)
    else BurnAndSend(env, w, user, sender, amount, extra, accepts)
  }

  /** `transferWithExtra`, and `transfer` with an empty extra */
  function Transfer(env: Env, w: World, sender: Address, asset: Address, to: Address, value: nat, extra: bytes, accepts: bool): Option<World> {
    if asset !in w.tokens then None else
    var t :- Moved(w.tokens[asset], sender, to, value);
    RegistryBurn(env, WithToken(w, asset, t), asset, to, value, extra, accepts)
  }

  function TransferFrom(env: Env, w: World, sender: Address, asset: Address, from: Address, to: Address, value: nat): Option<World> {
    if asset !in w.tokens then None else
    var t :- MovedFrom(w.tokens[asset], sender, from, to, value);
    RegistryBurn(env, WithToken(w, asset, t), asset, to, value, [], true)
  }

  function Approve(w: World, sender: Address, asset: Address, spender: Address, value: nat): Option<World> {
    if asset !in w.tokens then None else
    var t :- Approved(w.tokens[asset], sender, spender, value);
    Some(WithToken(w, asset, t))
  }

  // ---------- group key ----------

  const HALT_TAG: bytes := [72, 65, 76, 84]

  function Halt(env: Env, w: World, sig: Sig): Option<World> {
    if !env.verify(sig, w.group, HALT_TAG + ToBE(w.inbound, 8)) then None
    else Some(w.(halted := !w.halted, log := w.log + [Halted(!w.halted, sig, w.inbound)]))
  }

  function Word(raw: bytes, i: nat): nat
    requires 32 * (i + 1) <= |raw|
  {
    FromBE(raw[32 * i..32 * (i + 1)])
  }

  function Iterate(env: Env, w: World, raw: bytes): Option<World> {
    if !w.halted || |raw| != 256 then None else
    var group := (Word(raw, 0), Word(raw, 1), Word(raw, 2), Word(raw, 3));
    var sig1, sig2 := (Word(raw, 4), Word(raw, 5)), (Word(raw, 6), Word(raw, 7));
    if !env.verify(sig1, w.group, raw[..128]) || !env.verify(sig2, group, raw[..128]) then None
    else Some(w.(group := group, log := w.log + [Iterated(w.group, group, raw[..128], sig1, sig2)]))
  }

  // ---------- inbound events and the calls they make ----------

  datatype Call =
    | TransferCall(sender: Address, asset: Address, to: Address, value: nat, extra: bytes, accepts: bool)
    | TransferFromCall(sender: Address, asset: Address, from: Address, to: Address, value: nat)
    | ApproveCall(sender: Address, asset: Address, spender: Address, value: nat)
    | ClaimCall(sender: Address, asset: Address, amount: nat)
    | BurnCall(sender: Address, user: Address, amount: nat, extra: bytes, accepts: bool)
    | HaltCall(sig: Sig)
    | IterateCall(raw: bytes)
    | MixinCall(raw: bytes, stored: Option<bytes>, behaviours: seq<Behaviour>)

  /** What a called process does: some calls, each of which it survives, and then success or a revert. */
  datatype Behaviour = Behaviour(calls: seq<Call>, succeeds: bool)

  /** The input of an event, read from storage where it names some; `stored` is what the storage contract returns, if it does. */
  function Effective(env: Env, input: bytes, stored: Option<bytes>): Option<bytes> {
    if |input| == STORAGE_EXTRA_SIZE && NamesStorage(env.pid, input) then stored else Some(input)
  }

  /** `mixin` up to and including the mint: the world, the user, the asset and the input of its `run`. */
  function Accept(env: Env, w: World, raw: bytes, stored: Option<bytes>): Option<(World, Address, Address, nat, bytes)> {
    if w.halted then None else
    var r :- ParseInbound(env.pid, raw);
    if r.nonce != w.inbound || w.inbound + 1 >= U64 then None else
    var (w1, user) := GetOrCreateUser(env, w, r.block);
    var input :- Effective(env, r.input, stored);
    var (w2, asset) := GetOrCreateAsset(env, w1, r.asset, r.symbol, r.name);
    if !env.verify(r.sig, w.group, r.message) then None
    else if asset !in w2.assets || asset !in w2.tokens then None
    else
      var id := w2.assets[asset];
      if Get(w2.custody, id) + r.amount >= U256 then None
      else
        var t :- Minted(w2.tokens[asset], user, r.amount);
        Some((Credited(w2, user, asset, r, input, t), user, asset, r.amount, input))
  }

  /** The state changes of an accepted event: nonce, custody, log and the minted token. */
  function Credited(w: World, user: Address, asset: Address, r: Inbound, input: bytes, t: Token): World
    requires asset in w.assets
  {
    var id := w.assets[asset];
    w.(inbound := w.inbound + 1,
       custody := w.custody[id := Get(w.custody, id) + r.amount],
       log := w.log + [MixinEvent(r.nonce, user, asset, r.amount, input, r.timestamp, id, r.sig, r.message)],
       tokens := w.tokens[asset := t])
  }

  function Exec(env: Env, w: World, call: Call): Option<World>
    decreases call, 0
  {
    match call
    case TransferCall(sender, asset, to, value, extra, accepts) => Transfer(env, w, sender, asset, to, value, extra, accepts)
    case TransferFromCall(sender, asset, from, to, value) => TransferFrom(env, w, sender, asset, from, to, value)
    case ApproveCall(sender, asset, spender, value) => Approve(w, sender, asset, spender, value)
    case ClaimCall(sender, asset, amount) => Claim(env, w, sender, asset, amount)
    case BurnCall(sender, user, amount, extra, accepts) => RegistryBurn(env, w, sender, user, amount, extra, accepts)
    case HaltCall(sig) => Halt(env, w, sig)
    case IterateCall(raw) => Iterate(env, w, raw)
    case MixinCall(raw, stored, behaviours) =>
      var (w1, user, asset, amount, input) :- Accept(env, w, raw, stored);
      if !Interprets(input) then Claim(env, w1, user, asset, amount)
      else
        var w2 :- RunProcesses(env, w1, user, asset, amount, input, 2, FromBE(input[..2]), behaviours);
        var claimed := Claim(env, w2, user, asset, amount);
        if claimed.Some? then claimed else Some(w2)
  }

  /** The loop of `run`: approve the first process, call each in turn, stop at the first failure. */
  function RunProcesses(env: Env, w: World, user: Address, asset: Address, amount: nat, input: bytes,
                        offset: nat, count: nat, behaviours: seq<Behaviour>): Option<World>
    decreases behaviours, 1
  {
    if offset >= |input| || offset + 20 > |input| then Some(w)
    else
      var process := FromBE(input[offset..offset + 20]);
      var approved := if offset == 2 then ApproveFirst(w, user, asset, process, amount) else Some(w);
      if approved.None? then None
      else
        var w1 := approved.value;
        var entry := EntryAt(input, offset);
        if entry.Incomplete? || behaviours == [] || !behaviours[0].succeeds then Some(w1)
        else
          var w2 := ExecAll(env, w1, behaviours[0].calls);
          if count == 0 then None
          else RunProcesses(env, w2, user, asset, amount, input, entry.next, count - 1, behaviours[1..])
  }

  function ApproveFirst(w: World, user: Address, asset: Address, process: Address, amount: nat): Option<World> {
    var w1 :- Approve(w, user, asset, process, 0);
    Approve(w1, user, asset, process, amount)
  }

  /** Calls made one after the other by contracts that survive a reverted call. */
  function ExecAll(env: Env, w: World, calls: seq<Call>): World
    decreases calls, 0
  {
    if calls == [] then w
    else
      var r := Exec(env, w, calls[0]);
      ExecAll(env, if r.Some? then r.value else w, calls[1..])
  }
}
