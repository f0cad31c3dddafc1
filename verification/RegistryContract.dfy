/**
  The registry contract as an object: its fields updated in place by its methods,
  each of which has the effect of the corresponding transition, keeps its invariant and,
  where the contract reverts, returns false with nothing changed.
 */
module RegistryContract {
  import opened Bytes
  import opened Sums
  import opened AssetToken
  import opened RegistryCodec
  import opened Registry
  import opened RegistrySafety

  class Contract {
    const env: Env
    var group: GroupKey
    var inbound: nat
    var outbound: nat
    var halted: bool
    var custody: map<nat, nat>
    var users: map<Address, bytes>
    var assets: map<Address, nat>
    var contracts: map<nat, Address>
    var tokens: map<Address, Token>
    var log: seq<Log>

    ghost function State(): World
      reads this
    {
      World(group, inbound, outbound, halted, custody, users, assets, contracts, tokens, log)
    }

    twostate predicate Did(r: Option<World>, ok: bool)
      reads this
    {
      ok == r.Some? && State() == if ok then r.value else old(State())
    }

    constructor (env: Env)
      ensures this.env == env && State() == Deployed(env) && Inv(env, State())
    {
      DeployedOk(env);
      this.env := env;
      group, inbound, outbound, halted := env.genesis, 0, 0, false;
      custody, users, assets, contracts, tokens, log := map[], map[], map[], map[], map[], [];
    }

    method Iterate(raw: bytes) returns (ok: bool)
      modifies this
      ensures Did(Registry.Iterate(env, old(State()), raw), ok)
      ensures env.Ideal() && Inv(env, old(State())) ==> Inv(env, State())
    {
      hide Owing;
      if env.Ideal() && Inv(env, State()) {
        GroupOk(env, map[], State(), (0, 0), raw);
      }
      hide Inv;
      if !halted || |raw| != 256 {
        return false;
      }
      var next := (Word(raw, 0), Word(raw, 1), Word(raw, 2), Word(raw, 3));
      var sig1, sig2 := (Word(raw, 4), Word(raw, 5)), (Word(raw, 6), Word(raw, 7));
      var message := raw[..128];
      if !env.verify(sig1, group, message) || !env.verify(sig2, next, message) {
        return false;
      }
      log := log + [Iterated(group, next, message, sig1, sig2)];
      group := next;
      return true;
    }

    method Halt(sig: Sig) returns (ok: bool)
      modifies this
      ensures Did(Registry.Halt(env, old(State()), sig), ok)
      ensures env.Ideal() && Inv(env, old(State())) ==> Inv(env, State())
    {
      hide Owing;
      if env.Ideal() && Inv(env, State()) {
        GroupOk(env, map[], State(), sig, []);
      }
      hide Inv;
      var input := HALT_TAG + ToBE(inbound, 8);
      if !env.verify(sig, group, input) {
        return false;
      }
      halted := !halted;
      log := log + [Halted(halted, sig, inbound)];
      return true;
    }

    method GetOrCreateAssetContract(id: nat, symbol: bytes, name: bytes) returns (asset: Address)
      modifies this
      ensures (State(), asset) == GetOrCreateAsset(env, old(State()), id, symbol, name)
      ensures env.Ideal() && Inv(env, old(State())) && 0 < id < U128 ==> Inv(env, State())
    {
      hide Owing;
      if env.Ideal() && Inv(env, State()) && 0 < id < U128 {
        CreateAssetOk(env, map[], State(), id, symbol, name);
      }
      hide Inv;
      if id in contracts {
        return contracts[id];
      }
      asset := env.assetAddress(id, symbol, name);
      if asset in assets {
        return;
      }
      tokens := tokens[asset := NEW_TOKEN];
      assets := assets[asset := id];
      contracts := contracts[id := asset];
    }

    method GetOrCreateUserContract(members: bytes) returns (user: Address)
      modifies this
      ensures (State(), user) == GetOrCreateUser(env, old(State()), members)
      ensures env.Ideal() && Inv(env, old(State())) ==> Inv(env, State())
    {
      hide Owing;
      if env.Ideal() && Inv(env, State()) {
        CreateUserOk(env, map[], State(), members);
      }
      hide Inv;
      var id := env.userKey(members);
      if id in contracts {
        return contracts[id];
      }
      user := env.userAddress(members);
      if user in users {
        return;
      }
      users := users[user := members];
      contracts := contracts[id := user];
    }

    method SendMixinTransaction(user: Address, asset: Address, amount: nat, extra: bytes, accepts: bool) returns (ok: bool)
      modifies this
      ensures Did(SendTransaction(env, old(State()), user, asset, amount, extra, accepts), ok)
    {
      if user !in users || asset !in assets {
        return false;
      }
      var balance := Get(custody, assets[asset]);
      if NamesStorage(env.pid, extra) && !accepts {
        return false;
      }
      if balance < amount || outbound + 1 >= U64 {
        return false;
      }
      log := log + [MixinTransaction(outbound, users[user], assets[asset], amount, Truncated(env.pid, extra))];
      custody := custody[assets[asset] := balance - amount];
      outbound := outbound + 1;
      return true;
    }

    /** The asset's burn and the transaction that pays it out, undone together. */
    method BurnAndSend(user: Address, asset: Address, amount: nat, extra: bytes, accepts: bool) returns (ok: bool)
      modifies this
      ensures Did(Registry.BurnAndSend(env, old(State()), user, asset, amount, extra, accepts), ok)
      ensures env.Ideal() && Inv(env, old(State())) ==> Inv(env, State())
    {
      hide Owing;
      if env.Ideal() && Inv(env, State()) && asset in assets && asset in tokens && user in users {
        BurnAndSendOk(env, map[], State(), user, asset, amount, extra, accepts);
      }
      hide Inv;
      if asset !in tokens {
        return false;
      }
      var t := Burned(tokens[asset], user, amount);
      if t.None? {
        return false;
      }
      var before := tokens;
      tokens := tokens[asset := t.value];
      ok := SendMixinTransaction(user, asset, amount, extra, accepts);
      if !ok {
        tokens := before;
      }
    }

    method Claim(sender: Address, asset: Address, amount: nat) returns (ok: bool)
      modifies this
      ensures Did(Registry.Claim(env, old(State()), sender, asset, amount), ok)
      ensures env.Ideal() && Inv(env, old(State())) ==> Inv(env, State())
    {
      hide Owing;
      if env.Ideal() && Inv(env, State()) {
        ClaimOk(env, map[], State(), sender, asset, amount);
      }
      hide Inv;
      if sender !in users || asset !in assets {
        return false;
      }
      ok := BurnAndSend(sender, asset, amount, [], true);
    }

    method Burn(sender: Address, user: Address, amount: nat, extra: bytes, accepts: bool) returns (ok: bool)
      modifies this
      ensures Did(RegistryBurn(env, old(State()), sender, user, amount, extra, accepts), ok)
      ensures env.Ideal() && Inv(env, old(State())) ==> Inv(env, State())
    {
      hide Owing;
      if env.Ideal() && Inv(env, State()) {
        RegistryBurnOk(env, map[], State(), sender, user, amount, extra, accepts);
      }
      hide Inv;
      if sender !in assets {
        return false;
      }
      if user !in users {
        return true;
      }
      ok := BurnAndSend(user, sender, amount, extra, accepts);
    }

    /** Custody, nonce, log and mint of an event whose contracts exist. */
    method BookEvent(user: Address, asset: Address, evt: Inbound, input: bytes) returns (ok: bool)
      modifies this
      ensures Did(Booked(env, old(State()), user, asset, evt, input), ok)
    {
      hide Minted;
      if !env.verify(evt.sig, group, evt.message) || asset !in assets || asset !in tokens {
        return false;
      }
      var id := assets[asset];
      var balance := Get(custody, id);
      var minted := Minted(tokens[asset], user, evt.amount);
      if balance + evt.amount >= U256 || minted.None? {
        return false;
      }
      inbound := inbound + 1;
      custody := custody[id := balance + evt.amount];
      log := log + [MixinEvent(evt.nonce, user, asset, evt.amount, input, evt.timestamp, id, evt.sig, evt.message)];
      tokens := tokens[asset := minted.value];
      return true;
    }

    /** `mixin` up to the call of the user contract; `credit` is what that call is given. */
    method AcceptEvent(raw: bytes, stored: Option<bytes>) returns (credit: Option<(Address, Address, nat, bytes)>)
      modifies this
      ensures var r := Accept(env, old(State()), raw, stored);
        && credit.Some? == r.Some?
        && State() == (if r.Some? then r.value.0 else old(State()))
        && (r.Some? ==> credit.value == (r.value.1, r.value.2, r.value.3, r.value.4))
      ensures env.Ideal() && Inv(env, old(State())) ==> Inv(env, State())
    {
      hide Inv;
      AcceptKept(env, State(), raw, stored);
      hide Accept, ParseInbound, Booked, GetOrCreateUser, GetOrCreateAsset, Effective;
      AcceptStages(env, State(), raw, stored);
      if halted {
        return None;
      }
      var parsed := ParseInbound(env.pid, raw);
      if parsed.None? {
        return None;
      }
      var evt := parsed.value;
      if evt.nonce != inbound || inbound + 1 >= U64 {
        return None;
      }
      ghost var start := State();
      var before := (users, assets, contracts, tokens);
      FactoryFrame(env, start, evt);
      var user := GetOrCreateUserContract(evt.block);
      var input := Effective(env, evt.input, stored);
      if input.None? {
        users, assets, contracts, tokens := before.0, before.1, before.2, before.3;
        return None;
      }
      var asset := GetOrCreateAssetContract(evt.asset, evt.symbol, evt.name);
      var ok := BookEvent(user, asset, evt, input.value);
      if !ok {
        users, assets, contracts, tokens := before.0, before.1, before.2, before.3;
        return None;
      }
      return Some((user, asset, evt.amount, input.value));
    }
  }

  function Booked(env: Env, w: World, user: Address, asset: Address, r: Inbound, input: bytes): Option<World> {
    if !env.verify(r.sig, w.group, r.message) || asset !in w.assets || asset !in w.tokens
      || Get(w.custody, w.assets[asset]) + r.amount >= U256 then None
    else
      var t :- Minted(w.tokens[asset], user, r.amount);
      Some(Credited(w, user, asset, r, input, t))
  }

  function Created(env: Env, w: World, r: Inbound): (World, Address, Address) {
    var (w1, user) := GetOrCreateUser(env, w, r.block);
    var (w2, asset) := GetOrCreateAsset(env, w1, r.asset, r.symbol, r.name);
    (w2, user, asset)
  }

  /** Creating contracts leaves everything else alone. */
  lemma FactoryFrame(env: Env, w: World, r: Inbound)
    ensures var w' := Created(env, w, r).0;
      w' == w.(users := w'.users, assets := w'.assets, contracts := w'.contracts, tokens := w'.tokens)
    ensures var w1 := GetOrCreateUser(env, w, r.block).0; w1 == w.(users := w1.users, contracts := w1.contracts)
  {
  }

  /** Accepting an event is parsing it, creating what it names, and booking it. */
  lemma AcceptStages(env: Env, w: World, raw: bytes, stored: Option<bytes>)
    ensures var parsed := ParseInbound(env.pid, raw);
      if w.halted || parsed.None? || parsed.value.nonce != w.inbound || w.inbound + 1 >= U64 then Accept(env, w, raw, stored).None?
      else
        var r := parsed.value;
        var (w2, user, asset) := Created(env, w, r);
        var input := Effective(env, r.input, stored);
        if input.None? then Accept(env, w, raw, stored).None?
        else
          var booked := Booked(env, w2, user, asset, r, input.value);
          Accept(env, w, raw, stored) == if booked.Some? then Some((booked.value, user, asset, r.amount, input.value)) else None
  {
    hide ParseInbound, NamesStorage, Minted, Credited;
    var parsed := ParseInbound(env.pid, raw);
    if parsed.Some? {
      FactoryFrame(env, w, parsed.value);
    }
  }

  lemma AcceptKept(env: Env, w: World, raw: bytes, stored: Option<bytes>)
    ensures env.Ideal() && Inv(env, w) && Accept(env, w, raw, stored).Some? ==> Inv(env, Accept(env, w, raw, stored).value.0)
  {
    hide Owing, Accept, ParseInbound;
    if env.Ideal() && Inv(env, w) {
      AcceptOk(env, map[], w, raw, stored);
    }
  }
}
