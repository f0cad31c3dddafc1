/**
  What a storage contract that calls back would do. The registry does not check the
  address an extra names; while it is being written to, a contract there may make any
  calls, between the registry's reading of balance and nonce and its writing of both.
 */
module StorageReentry {
  import opened Bytes
  import opened Sums
  import opened AssetToken
  import opened RegistryCodec
  import opened UserRun
  import opened Registry
  import opened RegistrySafety
  import opened EventCodec
  import CodecAgreement

  /** The world after the storage write, in which the contract written to makes `calls`; without storage there is no write. */
  function DuringWrite(env: Env, w: World, extra: bytes, calls: seq<Call>): World {
    if NamesStorage(env.pid, extra) then ExecAll(env, w, calls) else w
  }

  /** `sendMixinTransaction`: balance and nonce are read before the write, the counter again after it. */
  function SendCalling(env: Env, w: World, user: Address, asset: Address, amount: nat, extra: bytes, calls: seq<Call>): Option<World> {
    if user !in w.users || asset !in w.assets then None else
    var id := w.assets[asset];
    var balance := Get(w.custody, id);
    var w1 := DuringWrite(env, w, extra, calls);
    if balance < amount || w1.outbound + 1 >= U64 then None
    else Some(w1.(
      custody := w1.custody[id := balance - amount],
      outbound := w1.outbound + 1,
      log := w1.log + [MixinTransaction(w.outbound, w.users[user], id, amount, Truncated(env.pid, extra))]))
  }

  /** A storage contract that makes no calls gives the transition used everywhere else. */
  lemma QuietStorage(env: Env, w: World, user: Address, asset: Address, amount: nat, extra: bytes)
    ensures SendCalling(env, w, user, asset, amount, extra, []) == SendTransaction(env, w, user, asset, amount, extra, true)
  {
  }

  // ---------- the exact condition ----------

  /** Burning opens a debt of the amount burned. */
  lemma BurnOwes(env: Env, w: World, user: Address, asset: Address, amount: nat)
    requires Inv(env, w) && asset in w.assets && asset in w.tokens && Get(w.tokens[asset].balances, user) >= amount
    ensures Burned(w.tokens[asset], user, amount).Some?
    ensures Owing(env, map[asset := amount], WithToken(w, asset, Burned(w.tokens[asset], user, amount).value))
  {
    hide Replay, Covered, Bridged, MapsOk, Burned, Sound;
    var owed: Owed := map[asset := amount];
    ReadBooks(env, w, asset);
    BurnedSound(w.tokens[asset], user, amount);
    var t := Burned(w.tokens[asset], user, amount).value;
    OneAddressPerId(env, w, asset);
    forall b | b in w.assets && b in w.tokens && b != asset
      ensures Backed(w.tokens[b], Get(w.custody, w.assets[b]), Get(owed, b))
    {
      assert Backed(w.tokens[b], Get(w.custody, w.assets[b]), 0);
    }
    assert Backed(t, Get(w.custody, w.assets[asset]), amount);
    assert WithToken(w, asset, t).tokens.Keys == w.tokens.Keys by {
      KnownAsset(env, w, 0);
    }
  }

  /** What is written after the calls: custody less the amount, and one more transaction with a nonce of its own choosing. */
  function Written(w: World, id: nat, custody: nat, entry: Log): World {
    w.(custody := w.custody[id := custody], outbound := w.outbound + 1, log := w.log + [entry])
  }

  /** Paying a debt restores the invariant exactly if custody and nonce are what they were read to be. */
  lemma PaysDebt(env: Env, w: World, asset: Address, amount: nat, balance: nat, entry: Log)
    requires Owing(env, map[asset := amount], w) && asset in w.assets && balance >= amount
    requires entry.MixinTransaction? && entry.asset == w.assets[asset] && entry.amount == amount
    ensures Inv(env, Written(w, w.assets[asset], balance - amount, entry)) <==>
      entry.nonce == w.outbound && Get(w.custody, w.assets[asset]) == balance
  {
    hide Replay, Covered, Bridged, MapsOk, Sound, Conserved;
    var id := w.assets[asset];
    var w' := Written(w, id, balance - amount, entry);
    KnownAsset(env, w, 0);
    CustodyIs(env, w, asset, amount);
    ReplayAppend(env, w.log, entry);
    if Inv(env, w') {
      ReadBooks(env, w', asset);
    } else if entry.nonce == w.outbound && Get(w.custody, id) == balance {
      DebtPaid(env, w, asset, amount, entry);
      assert false;
    }
  }

  lemma CustodyIs(env: Env, w: World, asset: Address, amount: nat)
    requires Owing(env, map[asset := amount], w) && asset in w.assets && asset in w.tokens
    ensures Sound(w.tokens[asset]) && Get(w.custody, w.assets[asset]) == w.tokens[asset].totalSupply + amount
  {
    hide Replay, Covered, Bridged, MapsOk, Sound;
    assert Backed(w.tokens[asset], Get(w.custody, w.assets[asset]), amount);
  }

  lemma DebtPaid(env: Env, w: World, asset: Address, amount: nat, entry: Log)
    requires Owing(env, map[asset := amount], w) && asset in w.assets && Get(w.custody, w.assets[asset]) >= amount
    requires entry.MixinTransaction? && entry.asset == w.assets[asset] && entry.amount == amount && entry.nonce == w.outbound
    ensures Inv(env, Written(w, w.assets[asset], Get(w.custody, w.assets[asset]) - amount, entry))
  {
    hide Replay, Bridged, MapsOk, Sound, Conserved;
    var id := w.assets[asset];
    var held := Get(w.custody, id) - amount;
    KnownAsset(env, w, 0);
    OneAddressPerId(env, w, asset);
    ReplayAppend(env, w.log, entry);
    BridgeMoves(w.assets, w.custody, w.log, asset, entry, w.custody[id := held]);
    FactoryKept(env, w, asset, w.tokens[asset], held);
    assert w.tokens[asset := w.tokens[asset]] == w.tokens;
    DebtCleared(w.assets, w.tokens, w.custody, asset, amount);
  }

  lemma DebtCleared(assets: map<Address, nat>, tokens: map<Address, Token>, custody: map<nat, nat>, a: Address, amount: nat)
    requires Conserved(assets, tokens, custody, map[a := amount]) && a in assets && a in tokens && Get(custody, assets[a]) >= amount
    requires forall b :: b in assets && assets[b] == assets[a] ==> b == a
    ensures Conserved(assets, tokens, custody[assets[a] := Get(custody, assets[a]) - amount], map[])
  {
    var owed: Owed := map[a := amount];
    var custody' := custody[assets[a] := Get(custody, assets[a]) - amount];
    hide Sound;
    forall b | b in assets && b in tokens ensures Backed(tokens[b], Get(custody', assets[b]), 0) {
      assert Backed(tokens[b], Get(custody, assets[b]), Get(owed, b));
    }
  }

  /** An address belongs to one asset for good. */
  lemma SameId(env: Env, owed: Owed, w: World, w': World, a: Address)
    requires env.Ideal() && Owing(env, owed, w) && Owing(env, owed, w') && a in owed
    ensures a in w.assets && a in w'.assets && w'.assets[a] == w.assets[a]
  {
    hide Replay, Covered, Bridged, Conserved;
    assert IsAssetAddress(env, a, w.assets[a]) && IsAssetAddress(env, a, w'.assets[a]);
  }

  /**
    For every payout and whatever calls the contract written to makes: the registry's
    invariant holds afterwards exactly if those calls left the outbound counter and the
    asset's custody as they were.
   */
  lemma ReentryExactly(env: Env, w: World, user: Address, asset: Address, amount: nat, extra: bytes, calls: seq<Call>)
    requires env.Ideal() && Inv(env, w) && asset in w.assets && asset in w.tokens && user in w.users
    requires Get(w.tokens[asset].balances, user) >= amount
    ensures Burned(w.tokens[asset], user, amount).Some?
    ensures var w0 := WithToken(w, asset, Burned(w.tokens[asset], user, amount).value);
      var w1, id := DuringWrite(env, w0, extra, calls), w.assets[asset];
      var r := SendCalling(env, w0, user, asset, amount, extra, calls);
      && (r.None? <==> w1.outbound + 1 >= U64)
      && (r.Some? ==> (Inv(env, r.value) <==> w1.outbound == w.outbound && Get(w1.custody, id) == Get(w.custody, id)))
  {
    hide Owing, ExecAll, Burned, NamesStorage, Truncated;
    BurnOwes(env, w, user, asset, amount);
    var owed: Owed := map[asset := amount];
    var w0 := WithToken(w, asset, Burned(w.tokens[asset], user, amount).value);
    var w1 := DuringWrite(env, w0, extra, calls);
    CustodyIs(env, w0, asset, amount);
    ExecAllOk(env, owed, w0, calls);
    SameId(env, owed, w0, w1, asset);
    var r := SendCalling(env, w0, user, asset, amount, extra, calls);
    if r.Some? {
      var entry := MixinTransaction(w.outbound, w.users[user], w.assets[asset], amount, Truncated(env.pid, extra));
      PaysDebt(env, w1, asset, amount, Get(w.custody, w.assets[asset]), entry);
    }
  }

  // ---------- a storage contract that breaks it ----------

  /**
    One that holds the asset itself and transfers some to a user contract while being
    written to: the two transactions carry one nonce, and custody is left above the
    supply by what it transferred.
   */
  lemma CallingStorageBreaks(env: Env, w: World, user: Address, asset: Address, amount: nat, extra: bytes,
                             storage: Address, to: Address, value: nat)
    requires Inv(env, w) && asset in w.assets && asset in w.tokens && user in w.users && to in w.users
    requires NamesStorage(env.pid, extra) && Reference(extra).0 == storage && user != storage && w.outbound + 2 < U64
    requires Get(w.tokens[asset].balances, user) >= amount && Get(w.tokens[asset].balances, storage) >= value
    ensures var burned := Burned(w.tokens[asset], user, amount);
      && burned.Some?
      && var w0 := WithToken(w, asset, burned.value);
         var r := SendCalling(env, w0, user, asset, amount, extra, [TransferCall(storage, asset, to, value, [], true)]);
      && r.Some?
      && var w2, id := r.value, w.assets[asset];
      && w2.log == w.log + [MixinTransaction(w.outbound, w.users[to], id, value, Truncated(env.pid, [])),
                            MixinTransaction(w.outbound, w.users[user], id, amount, Truncated(env.pid, extra))]
      && asset in w2.tokens && w2.assets == w.assets && Get(w2.custody, id) == w2.tokens[asset].totalSupply + value
  {
    hide Inv, Sound, Truncated, Moved, Burned, Transfer, FromBE, NamesStorage;
    var t := w.tokens[asset];
    ReadBooks(env, w, asset);
    BurnedSound(t, user, amount);
    var t0 := Burned(t, user, amount).value;
    BurnedOthers(t, user, amount, storage);
    MovedSound(t0, storage, to, value);
    var t1 := Moved(t0, storage, to, value).value;
    BurnedSound(t1, to, value);
    SupplyCovers(t, user, amount, storage, value);
    var w0 := WithToken(w, asset, t0);
    TransferToUser(env, w0, storage, asset, to, value, t1, Burned(t1, to, value).value);
    OneCall(env, w0, TransferCall(storage, asset, to, value, [], true));
  }

  lemma OneCall(env: Env, w: World, call: Call)
    ensures ExecAll(env, w, [call]) == var r := Exec(env, w, call); if r.Some? then r.value else w
  {
    hide Exec;
    assert ExecAll(env, w, [call][1..]) == w;
  }

  lemma TransferToUser(env: Env, w: World, sender: Address, asset: Address, to: Address, value: nat, moved: Token, burned: Token)
    requires asset in w.assets && asset in w.tokens && to in w.users && w.outbound + 1 < U64
    requires Moved(w.tokens[asset], sender, to, value) == Some(moved) && Burned(moved, to, value) == Some(burned)
    requires Get(w.custody, w.assets[asset]) >= value
    ensures var id := w.assets[asset];
      Transfer(env, w, sender, asset, to, value, [], true) ==
        Some(w.(tokens := w.tokens[asset := burned], custody := w.custody[id := Get(w.custody, id) - value], outbound := w.outbound + 1,
                log := w.log + [MixinTransaction(w.outbound, w.users[to], id, value, Truncated(env.pid, []))]))
  {
    hide Moved, Burned, Truncated;
    assert w.tokens[asset := moved][asset := burned] == w.tokens[asset := burned];
  }

  lemma BurnedOthers(t: Token, from: Address, value: nat, other: Address)
    requires Burned(t, from, value).Some? && other != from
    ensures Get(Burned(t, from, value).value.balances, other) == Get(t.balances, other)
  {
  }

  /** Two holders' balances are within the supply. */
  lemma SupplyCovers(t: Token, user: Address, amount: nat, other: Address, value: nat)
    requires Sound(t) && user != other && Get(t.balances, user) >= amount && Get(t.balances, other) >= value
    ensures t.totalSupply >= amount + value
  {
    TotalSet(t.balances, user, 0);
    TotalSet(t.balances[user := 0], other, 0);
  }

  // ---------- a run that gets there ----------

  /** A list of one call, of the process at address zero */
  const INPUT: bytes := [0, 1] + (Zeros(20) + ([0, 4] + Zeros(4)))

  lemma InputReads()
    ensures |INPUT| == 28 && FromBE(INPUT[..2]) == 1 && FromBE(INPUT[2..22]) == 0
    ensures Interprets(INPUT) && EntryAt(INPUT, 2).Complete? && EntryAt(INPUT, 2).next == 28
  {
    assert INPUT[..2] == [0, 1] && INPUT[2..22] == Zeros(20) && INPUT[22..24] == [0, 4];
    TwoDigits(0, 1);
    TwoDigits(0, 4);
    FromBEZeros(20);
  }

  lemma TwoDigits(a: byte, b: byte)
    ensures FromBE([a, b]) == 256 * a + b
  {
    assert [a, b][..1] == [a] && [a][..0] == [];
    assert FromBE([a]) == a;
  }

  /** Three units of asset five for one member, with that list */
  const DEPOSIT: Event := Event(ToBE(7, 16), ToBE(5, 16), [Zeros(16)], 1, 3, CodecAgreement.Meta([], []) + INPUT, 1, 0, Zeros(64))

  lemma DepositReads()
    ensures ParseInbound(7, Encoded(DEPOSIT)).Some?
    ensures var r := ParseInbound(7, Encoded(DEPOSIT)).value; r.nonce == 0 && r.asset == 5 && r.amount == 3 && r.input == INPUT
  {
    hide ParseInbound, Encoded, ToBE, FromBE, Minimal;
    Pow256Words();
    FromToBE(7, 16);
    FromToBE(5, 16);
    MinimalLength(3, 32);
    assert |CodecAgreement.Meta([], [])| == 4;
    CodecAgreement.ContractReadsGoEvent(DEPOSIT, [], [], INPUT);
  }

  /** The world just after a first event was accepted */
  ghost predicate JustAccepted(env: Env, w: World, user: Address, asset: Address, amount: nat) {
    && asset in w.assets && asset in w.tokens && user in w.users && w.users.Keys == {user} && w.outbound == 0
    && w.tokens[asset] == Token(map[user := amount], map[], amount)
  }

  lemma FirstAccepted(env: Env, raw: bytes)
    requires env.Ideal() && (forall sig, key, message :: env.verify(sig, key, message))
    requires ParseInbound(env.pid, raw).Some?
    requires var r := ParseInbound(env.pid, raw).value; r.nonce == 0 && r.asset < U128 && |r.input| != STORAGE_EXTRA_SIZE && r.amount < U256
    ensures var a := Accept(env, Deployed(env), raw, None);
      var r := ParseInbound(env.pid, raw).value;
      a.Some? && a.value.3 == r.amount && a.value.4 == r.input && JustAccepted(env, a.value.0, a.value.1, a.value.2, r.amount)
  {
    hide ParseInbound, NamesStorage;
  }

  /** The called process moves one unit to the storage contract. */
  function MovesOne(user: Address, asset: Address, storage: Address): seq<Behaviour> {
    [Behaviour([TransferFromCall(0, asset, user, storage, 1)], true)]
  }

  /** And the world is ready for that contract to call back. */
  ghost predicate Ready(w: World, user: Address, asset: Address, storage: Address) {
    && asset in w.assets && asset in w.tokens && user in w.users && user != storage && w.outbound == 0
    && Get(w.tokens[asset].balances, user) == 2 && Get(w.tokens[asset].balances, storage) == 1
  }

  lemma ProcessMoves(env: Env, w: World, user: Address, asset: Address, storage: Address)
    requires JustAccepted(env, w, user, asset, 3) && user != storage
    ensures var r := RunProcesses(env, w, user, asset, 3, INPUT, 2, 1, MovesOne(user, asset, storage));
      r.Some? && Ready(r.value, user, asset, storage)
  {
    hide FromBE, EntryAt;
    InputReads();
    var t := Token(map[user := 3], map[(user, 0) := 3], 3);
    ProcessApproved(w, user, asset);
    var w1 := WithToken(w, asset, t);
    var call := TransferFromCall(0, asset, user, storage, 1);
    OneCall(env, w1, call);
    OneMoved(env, w1, user, asset, storage);
  }

  lemma ProcessApproved(w: World, user: Address, asset: Address)
    requires asset in w.tokens && w.tokens[asset] == Token(map[user := 3], map[], 3)
    ensures ApproveFirst(w, user, asset, 0, 3) == Some(WithToken(w, asset, Token(map[user := 3], map[(user, 0) := 3], 3)))
  {
    var once := Token(map[user := 3], map[(user, 0) := 0], 3);
    var twice := Token(map[user := 3], map[(user, 0) := 3], 3);
    assert w.tokens[asset].allowed[(user, 0) := 0] == once.allowed && once.allowed[(user, 0) := 3] == twice.allowed;
    assert Approved(w.tokens[asset], user, 0, 0) == Some(once);
    assert Approved(once, user, 0, 3) == Some(twice);
    assert w.tokens[asset := once][asset := twice] == w.tokens[asset := twice];
  }

  lemma OneMoved(env: Env, w: World, user: Address, asset: Address, storage: Address)
    requires asset in w.assets && asset in w.tokens && w.users.Keys == {user} && user != storage && w.outbound == 0
    requires w.tokens[asset] == Token(map[user := 3], map[(user, 0) := 3], 3)
    ensures var r := TransferFrom(env, w, 0, asset, user, storage, 1); r.Some? && Ready(r.value, user, asset, storage)
  {
  }

  /** After three units came in and the process moved one, the claim of all three fails and the rest stays. */
  lemma DepositThenMove(env: Env, user: Address, asset: Address, storage: Address)
    requires env.Ideal() && env.pid == 7 && (forall sig, key, message :: env.verify(sig, key, message))
    requires var a := Accept(env, Deployed(env), Encoded(DEPOSIT), None); a.Some? && a.value.1 == user && a.value.2 == asset
    requires user != storage
    ensures Ready(ExecAll(env, Deployed(env), [MixinCall(Encoded(DEPOSIT), None, MovesOne(user, asset, storage))]), user, asset, storage)
  {
    hide Accept, Encoded, RunProcesses, FromBE;
    DepositReads();
    FirstAccepted(env, Encoded(DEPOSIT));
    InputReads();
    var w1 := Accept(env, Deployed(env), Encoded(DEPOSIT), None).value.0;
    ProcessMoves(env, w1, user, asset, storage);
    var call := MixinCall(Encoded(DEPOSIT), None, MovesOne(user, asset, storage));
    OneCall(env, Deployed(env), call);
  }

  /** What names a storage contract, with nothing to store */
  function Naming(storage: nat): bytes {
    ToBE(7, 16) + (ToBE(storage, 20) + Zeros(32))
  }

  lemma NamingNames(storage: nat)
    requires storage < 256
    ensures NamesStorage(7, Naming(storage)) && Reference(Naming(storage)).0 == storage
  {
    hide ToBE, FromBE, Pow256;
    var extra := Naming(storage);
    assert extra[..16] == ToBE(7, 16) && extra[16..36] == ToBE(storage, 20);
    Pow256Words();
    Pow256Values();
    FromToBE(7, 16);
    SmallPow(20);
    FromToBE(storage, 20);
  }

  lemma {:induction false} SmallPow(k: nat)
    requires k >= 1
    ensures Pow256(k) >= 256
  {
    if k > 1 {
      SmallPow(k - 1);
    }
  }

  /** From a fresh registry, one event leads to a state where a payout through such a contract repeats a nonce and breaks custody. */
  lemma BrokenRun() returns (env: Env, calls: seq<Call>, user: Address, asset: Address, storage: Address)
    ensures env.Ideal()
    ensures var w := ExecAll(env, Deployed(env), calls);
      && Inv(env, w) && Ready(w, user, asset, storage)
      && NamesStorage(env.pid, Naming(storage)) && Reference(Naming(storage)).0 == storage
      && var burned := Burned(w.tokens[asset], user, 1);
      && burned.Some?
      && var r := SendCalling(env, WithToken(w, asset, burned.value), user, asset, 1, Naming(storage), [TransferCall(storage, asset, user, 1, [], true)]);
      && r.Some? && !Inv(env, r.value)
  {
    hide Inv, ExecAll, Accept, Encoded, Burned, SendCalling, Naming, NamesStorage, Reference, Replay;
    env := IdealEnvExists(7, (0, 0, 0, 0), (_, _, _) => true);
    DepositReads();
    FirstAccepted(env, Encoded(DEPOSIT));
    var a := Accept(env, Deployed(env), Encoded(DEPOSIT), None).value;
    user, asset := a.1, a.2;
    storage := if user == 1 then 2 else 1;
    calls := [MixinCall(Encoded(DEPOSIT), None, MovesOne(user, asset, storage))];
    DepositThenMove(env, user, asset, storage);
    DeployedOk(env);
    InvKept(env, calls);
    NamingNames(storage);
    var w := ExecAll(env, Deployed(env), calls);
    CallingStorageBreaks(env, w, user, asset, 1, Naming(storage), storage, user, 1);
    var r := SendCalling(env, WithToken(w, asset, Burned(w.tokens[asset], user, 1).value), user, asset, 1, Naming(storage), [TransferCall(storage, asset, user, 1, [], true)]).value;
    AboveSupply(env, r, asset, w.assets[asset]);
  }

  lemma InvKept(env: Env, calls: seq<Call>)
    requires env.Ideal()
    ensures Inv(env, ExecAll(env, Deployed(env), calls))
  {
    hide Owing, ExecAll;
    DeployedOk(env);
    ExecAllOk(env, map[], Deployed(env), calls);
  }

  lemma AboveSupply(env: Env, w: World, asset: Address, id: nat)
    requires asset in w.tokens && asset in w.assets && w.assets[asset] == id && Get(w.custody, id) > w.tokens[asset].totalSupply
    ensures !Inv(env, w)
  {
    hide Owing;
    if Inv(env, w) {
      ReadBooks(env, w, asset);
    }
  }
}
