/**
  What no call, however nested, can break: custody equals supply equals the
  holders' balances for every asset, and is what came in less what went out; and the
  event log is a legal history.
 */
module RegistrySafety {
  import opened Bytes
  import opened Sums
  import opened AssetToken
  import opened RegistryCodec
  import opened UserRun
  import opened Registry
  import EventCodec
  import CodecAgreement

  // ---------- the legal histories ----------

  datatype Status = Status(group: GroupKey, inbound: nat, outbound: nat, halted: bool)

  /** The message is, in the nodes' own encoding, an event of the process with this nonce, asset, amount and time. */
  predicate Covers(env: Env, message: bytes, nonce: nat, id: nat, amount: nat, timestamp: nat) {
    match EventCodec.Parsed(message)
    case None => false
    case Some((e, rest)) =>
      && rest == [] && e.signature == [] && FromBE(e.process) == env.pid
      && e.nonce == nonce && FromBE(e.asset) == id && e.amount == amount && e.timestamp == timestamp
  }

  /** What the group signed for each accepted event is that event. */
  ghost predicate Covered(env: Env, log: seq<Log>) {
    forall i :: 0 <= i < |log| && log[i].MixinEvent? ==>
      Covers(env, log[i].message, log[i].nonce, log[i].id, log[i].amount, log[i].timestamp)
  }

  /** The message is this group key. */
  predicate Announces(message: bytes, key: GroupKey) {
    |message| == 128 && key == (Word(message, 0), Word(message, 1), Word(message, 2), Word(message, 3))
  }

  /**
    Inbound nonces count up and stop while halted, each event signed by the group then
    in force; outbound nonces count up; halting toggles on the group's signature over the
    inbound count; a key is replaced only while halted, by one that its predecessor
    and it itself have signed.
   */
  function Follows(env: Env, s: Status, entry: Log): Option<Status> {
    match entry
    case MixinEvent(nonce, _, _, _, _, _, _, sig, message) =>
      if !s.halted && nonce == s.inbound && env.verify(sig, s.group, message)
      then Some(s.(inbound := s.inbound + 1)) else None
    case MixinTransaction(nonce, _, _, _, _) =>
      if nonce == s.outbound then Some(s.(outbound := s.outbound + 1)) else None
    case Halted(state, sig, atInbound) =>
      if state != s.halted && atInbound == s.inbound && env.verify(sig, s.group, HALT_TAG + ToBE(s.inbound, 8))
      then Some(s.(halted := state)) else None
    case Iterated(from, to, message, sig1, sig2) =>
      if s.halted && from == s.group && Announces(message, to) && env.verify(sig1, from, message) && env.verify(sig2, to, message)
      then Some(s.(group := to)) else None
  }

  function Replay(env: Env, log: seq<Log>): Option<Status> {
    if log == [] then Some(Status(env.genesis, 0, 0, false))
    else
      var s :- Replay(env, log[..|log| - 1]);
      Follows(env, s, log[|log| - 1])
  }

  function StatusOf(w: World): Status {
    Status(w.group, w.inbound, w.outbound, w.halted)
  }

  lemma ReplayAppend(env: Env, log: seq<Log>, entry: Log)
    ensures Replay(env, log + [entry]) == var s :- Replay(env, log); Follows(env, s, entry)
  {
    assert (log + [entry])[..|log|] == log;
  }

  // ---------- the invariant ----------

  ghost predicate IsAssetAddress(env: Env, a: Address, id: nat) {
    exists s, n :: a == env.assetAddress(id, s, n)
  }

  ghost predicate MapsOk(env: Env, users: map<Address, bytes>, assets: map<Address, nat>, contracts: map<nat, Address>,
                         deployed: set<Address>, held: set<nat>) {
    && (forall a :: a in assets ==>
         0 < assets[a] < U128 && IsAssetAddress(env, a, assets[a]) && assets[a] in contracts && contracts[assets[a]] == a)
    && (forall id :: id in contracts && id < U128 ==> contracts[id] in assets && assets[contracts[id]] == id)
    && (forall k :: k in contracts && k >= U128 ==> contracts[k] in users && env.userKey(users[contracts[k]]) == k)
    && (forall u :: u in users ==>
         u == env.userAddress(users[u]) && env.userKey(users[u]) in contracts && contracts[env.userKey(users[u])] == u)
    && (forall id :: id in held ==> id in contracts && id < U128)
    && deployed == assets.Keys
  }

  /** The factory's maps are inverse to each other, and only its own contracts exist. */
  ghost predicate FactoryOk(env: Env, w: World) {
    MapsOk(env, w.users, w.assets, w.contracts, w.tokens.Keys, w.custody.Keys)
  }

  /** What was burned and is still to be sent, while a payout is being made */
  type Owed = map<Address, nat>

  /** For each asset: custody is the supply and what is owed, and the supply is the sum of the holders' balances. */
  ghost predicate Conserved(assets: map<Address, nat>, tokens: map<Address, Token>, custody: map<nat, nat>, owed: Owed) {
    forall a :: a in assets && a in tokens ==> Backed(tokens[a], Get(custody, assets[a]), Get(owed, a))
  }

  ghost predicate Backed(t: Token, held: nat, due: nat) {
    Sound(t) && held == t.totalSupply + due
  }

  /** What the events credited an asset contract with */
  function PaidIn(log: seq<Log>, asset: Address): nat {
    if log == [] then 0
    else
      var last := log[|log| - 1];
      PaidIn(log[..|log| - 1], asset) + if last.MixinEvent? && last.asset == asset then last.amount else 0
  }

  /** What the transactions sent out of an asset */
  function PaidOut(log: seq<Log>, id: nat): nat {
    if log == [] then 0
    else
      var last := log[|log| - 1];
      PaidOut(log[..|log| - 1], id) + if last.MixinTransaction? && last.asset == id then last.amount else 0
  }

  /** For each asset: custody is what came in less what went out. */
  ghost predicate Bridged(assets: map<Address, nat>, custody: map<nat, nat>, log: seq<Log>) {
    && (forall a :: a in assets ==> Get(custody, assets[a]) + PaidOut(log, assets[a]) == PaidIn(log, a))
    && (forall a :: a !in assets ==> PaidIn(log, a) == 0)
    && (forall id :: id !in assets.Values ==> PaidOut(log, id) == 0)
  }

  ghost predicate Owing(env: Env, owed: Owed, w: World) {
    && FactoryOk(env, w) && owed.Keys <= w.assets.Keys
    && Conserved(w.assets, w.tokens, w.custody, owed) && Bridged(w.assets, w.custody, w.log)
    && Replay(env, w.log) == Some(StatusOf(w)) && Covered(env, w.log)
  }

  /** Between payouts nothing is owed. */
  ghost predicate Inv(env: Env, w: World) {
    Owing(env, map[], w)
  }

  lemma PaidAppend(log: seq<Log>, entry: Log)
    ensures forall a :: PaidIn(log + [entry], a) == PaidIn(log, a) + if entry.MixinEvent? && entry.asset == a then entry.amount else 0
    ensures forall id :: PaidOut(log + [entry], id) == PaidOut(log, id) + if entry.MixinTransaction? && entry.asset == id then entry.amount else 0
  {
    assert (log + [entry])[..|log|] == log;
  }

  /** An event or transaction that moves custody by its amount keeps the bridge's books. */
  lemma BridgeMoves(assets: map<Address, nat>, custody: map<nat, nat>, log: seq<Log>, a: Address, entry: Log, custody': map<nat, nat>)
    requires Bridged(assets, custody, log) && a in assets && forall b :: b in assets && assets[b] == assets[a] ==> b == a
    requires
      || (entry.MixinEvent? && entry.asset == a && custody' == custody[assets[a] := Get(custody, assets[a]) + entry.amount])
      || (entry.MixinTransaction? && entry.asset == assets[a] && entry.amount <= Get(custody, assets[a])
          && custody' == custody[assets[a] := Get(custody, assets[a]) - entry.amount])
    ensures Bridged(assets, custody', log + [entry])
  {
    hide PaidIn, PaidOut;
    PaidAppend(log, entry);
    assert assets[a] in assets.Values;
  }

  /** Other log entries do not touch them, nor does a new asset. */
  lemma BridgeStays(assets: map<Address, nat>, custody: map<nat, nat>, log: seq<Log>, entry: Log)
    requires Bridged(assets, custody, log) && (entry.Halted? || entry.Iterated?)
    ensures Bridged(assets, custody, log + [entry])
  {
    hide PaidIn, PaidOut;
    PaidAppend(log, entry);
  }

  lemma BridgeGrows(assets: map<Address, nat>, custody: map<nat, nat>, log: seq<Log>, a: Address, id: nat)
    requires Bridged(assets, custody, log) && a !in assets && id !in assets.Values && id !in custody
    ensures Bridged(assets[a := id], custody, log)
  {
    hide PaidIn, PaidOut;
    var more := assets[a := id];
    forall b | b in assets ensures assets[b] in more.Values {
      assert more[b] == assets[b];
    }
  }

  // ---------- factory steps ----------

  lemma AddAssetMaps(env: Env, users: map<Address, bytes>, assets: map<Address, nat>, contracts: map<nat, Address>,
                     held: set<nat>, a: Address, id: nat)
    requires MapsOk(env, users, assets, contracts, assets.Keys, held)
    requires a !in assets && id !in contracts && 0 < id < U128 && IsAssetAddress(env, a, id)
    ensures MapsOk(env, users, assets[a := id], contracts[id := a], assets.Keys + {a}, held)
  {
    hide IsAssetAddress;
  }

  lemma AddUserMaps(env: Env, users: map<Address, bytes>, assets: map<Address, nat>, contracts: map<nat, Address>,
                    held: set<nat>, members: bytes)
    requires MapsOk(env, users, assets, contracts, assets.Keys, held)
    requires env.userAddress(members) !in users && env.userKey(members) !in contracts && env.userKey(members) >= U128
    ensures MapsOk(env, users[env.userAddress(members) := members], assets,
                   contracts[env.userKey(members) := env.userAddress(members)], assets.Keys, held)
  {
    hide IsAssetAddress;
  }

  lemma FreshAsset(env: Env, w: World, id: nat, symbol: bytes, name: bytes)
    requires env.Ideal() && FactoryOk(env, w) && id !in w.contracts
    ensures env.assetAddress(id, symbol, name) !in w.assets
  {
    var a := env.assetAddress(id, symbol, name);
    assert a in w.assets ==> IsAssetAddress(env, a, w.assets[a]);
  }

  lemma NewAssetConserved(env: Env, owed: Owed, w: World, id: nat, a: Address)
    requires FactoryOk(env, w) && Conserved(w.assets, w.tokens, w.custody, owed) && a !in w.assets && id !in w.contracts && a !in owed
    ensures Conserved(w.assets[a := id], w.tokens[a := NEW_TOKEN], w.custody, owed)
  {
    assert Backed(NEW_TOKEN, 0, 0);
    hide Backed, IsAssetAddress;
    assert id !in w.custody;
  }

  lemma UnusedId(env: Env, w: World, id: nat)
    requires FactoryOk(env, w) && id !in w.contracts
    ensures id !in w.assets.Values && id !in w.custody
  {
  }

  lemma KnownAsset(env: Env, w: World, id: nat)
    requires FactoryOk(env, w)
    ensures w.tokens.Keys == w.assets.Keys
    ensures id in w.contracts && id < U128 ==> w.contracts[id] in w.assets && w.assets[w.contracts[id]] == id
  {
  }

  lemma OneAddressPerId(env: Env, w: World, a: Address)
    requires FactoryOk(env, w) && a in w.assets
    ensures forall b :: b in w.assets && w.assets[b] == w.assets[a] ==> b == a
  {
  }

  /** The factory always hands out the contract of the asked-for id. */
  lemma CreateAssetOk(env: Env, owed: Owed, w: World, id: nat, symbol: bytes, name: bytes)
    requires env.Ideal() && Owing(env, owed, w) && 0 < id < U128
    ensures var (w', a) := GetOrCreateAsset(env, w, id, symbol, name);
      && Owing(env, owed, w') && StatusOf(w') == StatusOf(w) && w'.log == w.log && w'.users == w.users && w'.custody == w.custody
      && a in w'.assets && w'.assets[a] == id
  {
    hide Bridged, Replay, Conserved, Covered, MapsOk;
    KnownAsset(env, w, id);
    if id !in w.contracts {
      var a := env.assetAddress(id, symbol, name);
      FreshAsset(env, w, id, symbol, name);
      assert IsAssetAddress(env, a, id);
      AddAssetMaps(env, w.users, w.assets, w.contracts, w.custody.Keys, a, id);
      NewAssetConserved(env, owed, w, id, a);
      UnusedId(env, w, id);
      BridgeGrows(w.assets, w.custody, w.log, a, id);
      assert w.tokens[a := NEW_TOKEN].Keys == w.tokens.Keys + {a};
    }
  }

  /** And the user contract of the asked-for members. */
  lemma CreateUserOk(env: Env, owed: Owed, w: World, members: bytes)
    requires env.Ideal() && Owing(env, owed, w)
    ensures var (w', u) := GetOrCreateUser(env, w, members);
      && Owing(env, owed, w') && StatusOf(w') == StatusOf(w) && w'.log == w.log && w'.custody == w.custody
      && u in w'.users && w'.users[u] == members
  {
    hide Replay, Conserved, Bridged;
    if env.userKey(members) in w.contracts {
      assert w.users[w.contracts[env.userKey(members)]] == members;
    } else {
      var u := env.userAddress(members);
      assert u !in w.users;
      AddUserMaps(env, w.users, w.assets, w.contracts, w.custody.Keys, members);
    }
  }

  // ---------- token steps ----------

  lemma ConservedKept(assets: map<Address, nat>, tokens: map<Address, Token>, custody: map<nat, nat>, owed: Owed, a: Address, t: Token, held: nat)
    requires Conserved(assets, tokens, custody, owed) && a in assets && Backed(t, held, Get(owed, a))
    requires forall b :: b in assets && assets[b] == assets[a] ==> b == a
    ensures Conserved(assets, tokens[a := t], custody[assets[a] := held], owed)
  {
    hide Backed;
    forall b | b in assets && b in tokens[a := t] && b != a
      ensures Get(custody[assets[a] := held], assets[b]) == Get(custody, assets[b])
    {
    }
  }

  lemma FactoryKept(env: Env, w: World, a: Address, t: Token, held: nat)
    requires FactoryOk(env, w) && a in w.assets
    ensures FactoryOk(env, w.(tokens := w.tokens[a := t], custody := w.custody[w.assets[a] := held]))
  {
    hide IsAssetAddress;
    assert w.tokens[a := t].Keys == w.tokens.Keys + {a};
    assert w.custody[w.assets[a] := held].Keys == w.custody.Keys + {w.assets[a]};
  }

  /** Changing one token together with its custody keeps the books, whatever else changes. */
  lemma BooksKept(env: Env, owed: Owed, w: World, w': World, a: Address)
    requires FactoryOk(env, w) && Conserved(w.assets, w.tokens, w.custody, owed) && a in w.assets
    requires w'.users == w.users && w'.assets == w.assets && w'.contracts == w.contracts
    requires a in w'.tokens && Sound(w'.tokens[a])
    requires w'.tokens == w.tokens[a := w'.tokens[a]]
    requires w'.custody == w.custody[w.assets[a] := w'.tokens[a].totalSupply + Get(owed, a)]
    ensures FactoryOk(env, w') && Conserved(w'.assets, w'.tokens, w'.custody, owed)
  {
    hide Sound, Conserved, MapsOk;
    var t := w'.tokens[a];
    OneAddressPerId(env, w, a);
    ConservedKept(w.assets, w.tokens, w.custody, owed, a, t, t.totalSupply + Get(owed, a));
    FactoryKept(env, w, a, t, t.totalSupply + Get(owed, a));
  }

  lemma SameSupplyOk(env: Env, owed: Owed, w: World, a: Address, t: Token)
    requires Owing(env, owed, w) && a in w.tokens && Sound(t) && t.totalSupply == w.tokens[a].totalSupply
    ensures Owing(env, owed, WithToken(w, a, t))
  {
    hide Replay, Sound, Bridged, IsAssetAddress, Get, Covered;
    assert WithToken(w, a, t).tokens.Keys == w.tokens.Keys;
    var held := if a in w.assets then Get(w.custody, w.assets[a]) else 0;
    assert a in w.assets ==> Backed(t, held, Get(owed, a));
    hide Backed, MapsOk;
  }

  /**
    A burn and payout either reverts for one of three reasons or keeps the invariant.
    The custody subtraction is not among the reasons: it never underflows.
   */
  lemma BurnAndSendOk(env: Env, owed: Owed, w: World, user: Address, asset: Address, amount: nat, extra: bytes, accepts: bool)
    requires Owing(env, owed, w) && asset in w.assets && asset in w.tokens && user in w.users
    ensures var r := BurnAndSend(env, w, user, asset, amount, extra, accepts);
      && (r.None? <==>
           || Get(w.tokens[asset].balances, user) < amount
           || w.outbound + 1 >= U64
           || (NamesStorage(env.pid, extra) && !accepts))
      && (r.Some? ==> Owing(env, owed, r.value))
  {
    hide Replay, Sound, NamesStorage, Truncated, MapsOk, Bridged;
    BurnedSound(w.tokens[asset], user, amount);
    var r := BurnAndSend(env, w, user, asset, amount, extra, accepts);
    if r.Some? {
      ReplayAppend(env, w.log, r.value.log[|w.log|]);
      BooksKept(env, owed, w, r.value, asset);
      OneAddressPerId(env, w, asset);
      BridgeMoves(w.assets, w.custody, w.log, asset, r.value.log[|w.log|], r.value.custody);
    }
  }

  lemma RegistryBurnOk(env: Env, owed: Owed, w: World, sender: Address, user: Address, amount: nat, extra: bytes, accepts: bool)
    requires Owing(env, owed, w)
    ensures var r := RegistryBurn(env, w, sender, user, amount, extra, accepts); r.Some? ==> Owing(env, owed, r.value)
  {
    if sender in w.assets && user in w.users {
      assert sender in w.tokens;
      BurnAndSendOk(env, owed, w, user, sender, amount, extra, accepts);
    }
  }

  /** A transfer to a user contract that the sender can afford is paid out: it has no other way to fail. */
  lemma TransferOk(env: Env, owed: Owed, w: World, sender: Address, asset: Address, to: Address, value: nat, extra: bytes, accepts: bool)
    requires Owing(env, owed, w)
    ensures var r := Transfer(env, w, sender, asset, to, value, extra, accepts);
      && (r.Some? ==> Owing(env, owed, r.value))
      && (asset in w.assets && asset in w.tokens ==>
           (r.None? <==>
             || Get(w.tokens[asset].balances, sender) < value
             || (to in w.users && (w.outbound + 1 >= U64 || (NamesStorage(env.pid, extra) && !accepts)))))
  {
    if asset in w.tokens {
      MovedSound(w.tokens[asset], sender, to, value);
      var t := Moved(w.tokens[asset], sender, to, value);
      if t.Some? {
        var w' := WithToken(w, asset, t.value);
        SameSupplyOk(env, owed, w, asset, t.value);
        RegistryBurnOk(env, owed, w', asset, to, value, extra, accepts);
        if to in w.users {
          BurnAndSendOk(env, owed, w', to, asset, value, extra, accepts);
        }
      }
    }
  }

  lemma TransferFromOk(env: Env, owed: Owed, w: World, sender: Address, asset: Address, from: Address, to: Address, value: nat)
    requires Owing(env, owed, w)
    ensures var r := TransferFrom(env, w, sender, asset, from, to, value); r.Some? ==> Owing(env, owed, r.value)
  {
    if asset in w.tokens {
      MovedFromSound(w.tokens[asset], sender, from, to, value);
      var t := MovedFrom(w.tokens[asset], sender, from, to, value);
      if t.Some? {
        SameSupplyOk(env, owed, w, asset, t.value);
        RegistryBurnOk(env, owed, WithToken(w, asset, t.value), asset, to, value, [], true);
      }
    }
  }

  lemma ApproveOk(env: Env, owed: Owed, w: World, sender: Address, asset: Address, spender: Address, value: nat)
    requires Owing(env, owed, w)
    ensures var r := Approve(w, sender, asset, spender, value); r.Some? ==> Owing(env, owed, r.value)
  {
    if asset in w.tokens {
      var t := Approved(w.tokens[asset], sender, spender, value);
      if t.Some? {
        SameSupplyOk(env, owed, w, asset, t.value);
      }
    }
  }

  lemma ClaimOk(env: Env, owed: Owed, w: World, sender: Address, asset: Address, amount: nat)
    requires Owing(env, owed, w)
    ensures var r := Claim(env, w, sender, asset, amount); r.Some? ==> Owing(env, owed, r.value)
  {
    if sender in w.users && asset in w.assets {
      assert asset in w.tokens;
      BurnAndSendOk(env, owed, w, sender, asset, amount, [], true);
    }
  }

  lemma GroupOk(env: Env, owed: Owed, w: World, sig: Sig, raw: bytes)
    requires Owing(env, owed, w)
    ensures Halt(env, w, sig).Some? ==> Owing(env, owed, Halt(env, w, sig).value)
    ensures Iterate(env, w, raw).Some? ==> Owing(env, owed, Iterate(env, w, raw).value)
  {
    hide ToBE, FromBE, Replay, MapsOk, Conserved, Bridged;
    if Halt(env, w, sig).Some? {
      var entry := Halt(env, w, sig).value.log[|w.log|];
      ReplayAppend(env, w.log, entry);
      BridgeStays(w.assets, w.custody, w.log, entry);
    }
    if Iterate(env, w, raw).Some? {
      var entry := Iterate(env, w, raw).value.log[|w.log|];
      KeyAnnounced(raw);
      ReplayAppend(env, w.log, entry);
      BridgeStays(w.assets, w.custody, w.log, entry);
    }
  }

  lemma KeyAnnounced(raw: bytes)
    requires |raw| == 256
    ensures Announces(raw[..128], (Word(raw, 0), Word(raw, 1), Word(raw, 2), Word(raw, 3)))
  {
    hide FromBE;
    assert forall i: nat :: i < 4 ==> raw[..128][32 * i..32 * (i + 1)] == raw[32 * i..32 * (i + 1)];
  }

  lemma ParsedAssetBounds(pid: nat, raw: bytes)
    requires ParseInbound(pid, raw).Some?
    ensures 0 < ParseInbound(pid, raw).value.asset < U128
  {
    hide FromBE, Pow256, ParseEventExtra, ParseEventUser, ParseEventInput;
    FromBEBound(raw[24..40]);
    Pow256Words();
  }

  lemma MintOk(env: Env, owed: Owed, w: World, raw: bytes, user: Address, asset: Address, r: Inbound, input: bytes, t: Token)
    requires ParseInbound(env.pid, raw) == Some(r) && asset in w.assets && w.assets[asset] == r.asset && env.verify(r.sig, w.group, r.message)
    requires Owing(env, owed, w) && asset in w.assets && asset in w.tokens && !w.halted && r.nonce == w.inbound
    requires Minted(w.tokens[asset], user, r.amount) == Some(t)
    ensures Owing(env, owed, Credited(w, user, asset, r, input, t))
  {
    hide Replay, Sound, MapsOk, Bridged, ParseInbound, EventCodec.Parsed, FromBE;
    var w' := Credited(w, user, asset, r, input, t);
    MintedSound(w.tokens[asset], user, r.amount);
    BooksKept(env, owed, w, w', asset);
    var e := CodecAgreement.GoReadsSignedMessage(env.pid, raw);
    assert Covers(env, r.message, r.nonce, r.asset, r.amount, r.timestamp);
    ReplayAppend(env, w.log, w'.log[|w.log|]);
    OneAddressPerId(env, w, asset);
    BridgeMoves(w.assets, w.custody, w.log, asset, w'.log[|w.log|], w'.custody);
  }

  /** An accepted event credits the contract of its own asset id and the user contract of its own members. */
  lemma AcceptOk(env: Env, owed: Owed, w: World, raw: bytes, stored: Option<bytes>)
    requires env.Ideal() && Owing(env, owed, w)
    ensures var a := Accept(env, w, raw, stored);
      a.Some? ==>
        var (w', user, asset, amount, input), r := a.value, ParseInbound(env.pid, raw).value;
        && Owing(env, owed, w')
        && r.nonce == w.inbound && !w.halted && amount == r.amount && env.verify(r.sig, w.group, r.message)
        && user in w'.users && w'.users[user] == r.block
        && asset in w'.assets && w'.assets[asset] == r.asset
        && Get(w'.custody, r.asset) == Get(w.custody, r.asset) + r.amount
  {
    hide ParseInbound, NamesStorage, GetOrCreateUser, GetOrCreateAsset, Owing, Minted;
    if Accept(env, w, raw, stored).Some? {
      var r := ParseInbound(env.pid, raw).value;
      ParsedAssetBounds(env.pid, raw);
      CreateUserOk(env, owed, w, r.block);
      var (w1, user) := GetOrCreateUser(env, w, r.block);
      CreateAssetOk(env, owed, w1, r.asset, r.symbol, r.name);
      var (w2, asset) := GetOrCreateAsset(env, w1, r.asset, r.symbol, r.name);
      var t := Minted(w2.tokens[asset], user, r.amount).value;
      MintOk(env, owed, w2, raw, user, asset, r, Accept(env, w, raw, stored).value.4, t);
    }
  }

  // ---------- whole call trees ----------

  lemma {:induction false} ExecOk(env: Env, owed: Owed, w: World, call: Call)
    requires env.Ideal() && Owing(env, owed, w)
    ensures Exec(env, w, call).Some? ==> Owing(env, owed, Exec(env, w, call).value)
    decreases call, 0
  {
    hide Owing, Accept, Transfer, TransferFrom, Approve, Claim, RegistryBurn, Halt, Iterate, RunProcesses;
    match call
    case TransferCall(sender, asset, to, value, extra, accepts) => TransferOk(env, owed, w, sender, asset, to, value, extra, accepts);
    case TransferFromCall(sender, asset, from, to, value) => TransferFromOk(env, owed, w, sender, asset, from, to, value);
    case ApproveCall(sender, asset, spender, value) => ApproveOk(env, owed, w, sender, asset, spender, value);
    case ClaimCall(sender, asset, amount) => ClaimOk(env, owed, w, sender, asset, amount);
    case BurnCall(sender, user, amount, extra, accepts) => RegistryBurnOk(env, owed, w, sender, user, amount, extra, accepts);
    case HaltCall(sig) => GroupOk(env, owed, w, sig, []);
    case IterateCall(raw) => GroupOk(env, owed, w, (0, 0), raw);
    case MixinCall(raw, stored, behaviours) =>
      AcceptOk(env, owed, w, raw, stored);
      var accepted := Accept(env, w, raw, stored);
      if accepted.Some? {
        var (w1, user, asset, amount, input) := accepted.value;
        ClaimOk(env, owed, w1, user, asset, amount);
        if Interprets(input) {
          RunProcessesOk(env, owed, w1, user, asset, amount, input, 2, FromBE(input[..2]), behaviours);
          var ran := RunProcesses(env, w1, user, asset, amount, input, 2, FromBE(input[..2]), behaviours);
          if ran.Some? {
            ClaimOk(env, owed, ran.value, user, asset, amount);
          }
        }
      }
  }

  lemma {:induction false} RunProcessesOk(env: Env, owed: Owed, w: World, user: Address, asset: Address, amount: nat, input: bytes,
                                          offset: nat, count: nat, behaviours: seq<Behaviour>)
    requires env.Ideal() && Owing(env, owed, w)
    ensures var r := RunProcesses(env, w, user, asset, amount, input, offset, count, behaviours);
      r.Some? ==> Owing(env, owed, r.value)
    decreases behaviours, 1
  {
    hide Owing, Approve, EntryAt, FromBE;
    if offset < |input| && offset + 20 <= |input| {
      var process := FromBE(input[offset..offset + 20]);
      ApproveOk(env, owed, w, user, asset, process, 0);
      var first := Approve(w, user, asset, process, 0);
      if first.Some? {
        ApproveOk(env, owed, first.value, user, asset, process, amount);
      }
      var approved := if offset == 2 then ApproveFirst(w, user, asset, process, amount) else Some(w);
      if approved.Some? && behaviours != [] && count > 0 {
        var entry := EntryAt(input, offset);
        if entry.Complete? && behaviours[0].succeeds {
          ExecAllOk(env, owed, approved.value, behaviours[0].calls);
          RunProcessesOk(env, owed, ExecAll(env, approved.value, behaviours[0].calls), user, asset, amount, input,
                         entry.next, count - 1, behaviours[1..]);
        }
      }
    }
  }

  lemma {:induction false} ExecAllOk(env: Env, owed: Owed, w: World, calls: seq<Call>)
    requires env.Ideal() && Owing(env, owed, w)
    ensures Owing(env, owed, ExecAll(env, w, calls))
    decreases calls, 0
  {
    hide Owing;
    if calls != [] {
      ExecOk(env, owed, w, calls[0]);
      var r := Exec(env, w, calls[0]);
      ExecAllOk(env, owed, if r.Some? then r.value else w, calls[1..]);
    }
  }

  lemma DeployedOk(env: Env)
    ensures Inv(env, Deployed(env))
  {
  }

  /** After any transactions on a fresh registry, custody, supply and holdings of every asset are the same number: what came in less what went out. */
  lemma CustodyConserved(env: Env, calls: seq<Call>, asset: Address)
    requires env.Ideal() && asset in ExecAll(env, Deployed(env), calls).assets
    ensures var w := ExecAll(env, Deployed(env), calls);
      && asset in w.tokens
      && Get(w.custody, w.assets[asset]) == w.tokens[asset].totalSupply == Total(w.tokens[asset].balances)
      && PaidIn(w.log, asset) == Get(w.custody, w.assets[asset]) + PaidOut(w.log, w.assets[asset])
  {
    hide Owing, ExecAll, PaidIn, PaidOut;
    DeployedOk(env);
    ExecAllOk(env, map[], Deployed(env), calls);
    ReadBooks(env, ExecAll(env, Deployed(env), calls), asset);
  }

  lemma ReadBooks(env: Env, w: World, asset: Address)
    requires Inv(env, w) && asset in w.assets
    ensures asset in w.tokens && Sound(w.tokens[asset]) && Get(w.custody, w.assets[asset]) == w.tokens[asset].totalSupply
    ensures PaidIn(w.log, asset) == Get(w.custody, w.assets[asset]) + PaidOut(w.log, w.assets[asset])
  {
    hide Replay, Covered, MapsOk, Sound, PaidIn, PaidOut;
    KnownAsset(env, w, 0);
    assert Backed(w.tokens[asset], Get(w.custody, w.assets[asset]), 0);
  }

  // ---------- reading the history ----------

  function InboundNonces(log: seq<Log>): seq<nat> {
    if log == [] then []
    else
      var last := log[|log| - 1];
      InboundNonces(log[..|log| - 1]) + if last.MixinEvent? then [last.nonce] else []
  }

  function OutboundNonces(log: seq<Log>): seq<nat> {
    if log == [] then []
    else
      var last := log[|log| - 1];
      OutboundNonces(log[..|log| - 1]) + if last.MixinTransaction? then [last.nonce] else []
  }

  lemma {:induction false} ReplayCounts(env: Env, log: seq<Log>)
    requires Replay(env, log).Some?
    ensures InboundNonces(log) == seq(Replay(env, log).value.inbound, i => i)
    ensures OutboundNonces(log) == seq(Replay(env, log).value.outbound, i => i)
  {
    hide Covers, Announces, ToBE;
    if log != [] {
      ReplayCounts(env, log[..|log| - 1]);
    }
  }

  lemma {:induction false} ReplayPrefix(env: Env, log: seq<Log>, i: nat)
    requires Replay(env, log).Some? && i < |log|
    ensures Replay(env, log[..i]).Some? && Follows(env, Replay(env, log[..i]).value, log[i]).Some?
  {
    hide Follows;
    var front := log[..|log| - 1];
    if i < |front| {
      ReplayPrefix(env, front, i);
      assert front[..i] == log[..i];
    }
  }

  /**
    In every run: accepted inbound nonces are 0 .. INBOUND-1 in order, outbound logs
    carry 0 .. OUTBOUND-1 once each, and every logged event was legal when it was
    logged: nothing inbound while halted, every new key signed by both keys.
   */
  lemma HistoryIsLegal(env: Env, calls: seq<Call>)
    requires env.Ideal()
    ensures var w := ExecAll(env, Deployed(env), calls);
      && InboundNonces(w.log) == seq(w.inbound, i => i)
      && OutboundNonces(w.log) == seq(w.outbound, i => i)
      && Replay(env, w.log) == Some(StatusOf(w))
      && Covered(env, w.log)
      && (forall i :: 0 <= i < |w.log| ==>
           Replay(env, w.log[..i]).Some? && Follows(env, Replay(env, w.log[..i]).value, w.log[i]).Some?)
  {
    DeployedOk(env);
    ExecAllOk(env, map[], Deployed(env), calls);
    var w := ExecAll(env, Deployed(env), calls);
    ReplayCounts(env, w.log);
    forall i | 0 <= i < |w.log|
      ensures Replay(env, w.log[..i]).Some? && Follows(env, Replay(env, w.log[..i]).value, w.log[i]).Some?
    {
      ReplayPrefix(env, w.log, i);
    }
  }

  /**
    The signature of a halt is not used up: it covers the inbound count only, which
    stands still, so it toggles again in every later world with the same group key and
    count, and first of all in the one it led to.
   */
  lemma HaltRepeats(env: Env, w: World, sig: Sig, later: World)
    requires Halt(env, w, sig).Some? && later.group == w.group && later.inbound == w.inbound
    ensures Halt(env, later, sig).Some? && Halt(env, later, sig).value.halted == !later.halted
    ensures var once := Halt(env, w, sig).value; Halt(env, once, sig).Some? && Halt(env, once, sig).value.halted == w.halted
  {
  }

  /** While halted no event is accepted, so the count does stand still. */
  lemma {:induction false} HaltedStands(env: Env, log: seq<Log>, i: nat)
    requires Replay(env, log).Some? && i <= |log| && Replay(env, log[..i]).Some? && Replay(env, log[..i]).value.halted
    requires forall j :: i <= j < |log| ==> !log[j].Halted?
    ensures Replay(env, log).value.halted && Replay(env, log).value.inbound == Replay(env, log[..i]).value.inbound
    decreases |log|
  {
    hide Announces, ToBE;
    if i == |log| {
      assert log[..i] == log;
    } else {
      var front := log[..|log| - 1];
      assert front[..i] == log[..i];
      HaltedStands(env, front, i);
    }
  }

  // ---------- agreement with the interpreter ----------

  function Outcome(behaviours: seq<Behaviour>): nat -> bool {
    (i: nat) => i < |behaviours| && behaviours[i].succeeds
  }

  /** The registry's run of an event's calls reverts exactly when the interpreter's counter underflows. */
  lemma {:induction false} RunRevertsAsLoop(env: Env, w: World, user: Address, asset: Address, amount: nat, input: bytes,
                                            offset: nat, count: nat, all: seq<Behaviour>, i: nat)
    requires i <= |all| && (offset == 2 ==> asset in w.tokens)
    ensures RunProcesses(env, w, user, asset, amount, input, offset, count, all[i..]).None?
       <==> Loop(input, offset, count, i, Outcome(all)).reverted
    decreases |all| - i
  {
    hide Approve, ExecAll, FromBE;
    if offset == 2 && offset + 20 <= |input| {
      FirstApproved(w, user, asset, FromBE(input[offset..offset + 20]), amount);
    }
    var entry := EntryAt(input, offset);
    if offset + 20 <= |input| && entry.Complete? && Outcome(all)(i) && count > 0 {
      var w1 := if offset == 2 then ApproveFirst(w, user, asset, FromBE(input[offset..offset + 20]), amount).value else w;
      assert all[i..][0] == all[i] && all[i..][1..] == all[i + 1..];
      RunRevertsAsLoop(env, ExecAll(env, w1, all[i].calls), user, asset, amount, input, entry.next, count - 1, all, i + 1);
    }
  }

  lemma FirstApproved(w: World, user: Address, asset: Address, process: Address, amount: nat)
    requires asset in w.tokens
    ensures ApproveFirst(w, user, asset, process, amount).Some?
  {
  }

  // ---------- the assumptions can be met ----------

  /** Addresses and keys without collisions exist, for any way of checking signatures. */
  lemma IdealEnvExists(pid: nat, genesis: GroupKey, verify: (Sig, GroupKey, bytes) -> bool) returns (env: Env)
    ensures env.pid == pid && env.genesis == genesis && env.verify == verify && env.Ideal()
  {
    env := Env(pid, genesis, verify, m => U128 + FromBE([1] + m), m => FromBE([1] + m), (id, symbol, name) => id);
    forall m: bytes, m': bytes | FromBE([1] + m) == FromBE([1] + m') ensures m == m' {
      SameDigits(m, m');
    }
  }

  lemma SameDigits(m: bytes, m': bytes)
    requires FromBE([1] + m) == FromBE([1] + m')
    ensures m == m'
  {
    LeadingOne(m);
    LeadingOne(m');
    if |m| < |m'| {
      PowGrows(|m|, |m'|);
      assert false;
    } else if |m'| < |m| {
      PowGrows(|m'|, |m|);
      assert false;
    }
    ToFromBE(m);
    ToFromBE(m');
  }

  lemma LeadingOne(m: bytes)
    ensures FromBE([1] + m) == Pow256(|m|) + FromBE(m) < 2 * Pow256(|m|)
  {
    hide FromBE, Pow256;
    FromBEConcat([1], m);
    FromBEBound(m);
    CodecAgreement.OneDigit(1);
  }

  lemma {:induction false} PowGrows(a: nat, b: nat)
    requires a < b
    ensures 2 * Pow256(a) <= Pow256(b)
    decreases b
  {
    if a + 1 < b {
      PowGrows(a, b - 1);
    }
  }
}
