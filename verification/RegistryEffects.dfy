/**
  What calls on the registry lead to: who holds what afterwards, what custody and
  supply are, and what was logged. Under the invariant each call succeeds exactly under
  the conditions stated.
 */
module RegistryEffects {
  import opened Bytes
  import opened Sums
  import opened AssetToken
  import opened RegistryCodec
  import opened UserRun
  import opened Registry
  import opened RegistrySafety

  // ---------- readers ----------

  function Held(w: World, asset: Address, owner: Address): nat {
    if asset in w.tokens then Balance(w.tokens[asset], owner) else 0
  }

  function Supply(w: World, asset: Address): nat {
    if asset in w.tokens then w.tokens[asset].totalSupply else 0
  }

  function Custody(w: World, id: nat): nat {
    Get(w.custody, id)
  }

  /** Contracts, group key, inbound count and halt are as they were. */
  ghost predicate SameRegistry(w: World, w': World) {
    && w'.users == w.users && w'.assets == w.assets && w'.contracts == w.contracts
    && w'.group == w.group && w'.inbound == w.inbound && w'.halted == w.halted
  }

  /** Of one asset, `user` holds `more` and not `less`, and so does everybody together; other holdings are untouched. */
  ghost predicate OneHolding(w: World, w': World, asset: Address, user: Address, more: nat, less: nat) {
    && Held(w', asset, user) + less == Held(w, asset, user) + more && Supply(w', asset) + less == Supply(w, asset) + more
    && (forall b, o :: b != asset || o != user ==> Held(w', b, o) == Held(w, b, o))
    && (forall b :: b != asset ==> Supply(w', b) == Supply(w, b))
  }

  ghost predicate OneCustody(w: World, w': World, id: nat, more: nat, less: nat) {
    Custody(w', id) + less == Custody(w, id) + more && forall x :: x != id ==> Custody(w', x) == Custody(w, x)
  }

  function Allowed(w: World, asset: Address, owner: Address, spender: Address): nat {
    if asset in w.tokens then Allowance(w.tokens[asset], owner, spender) else 0
  }

  /** Of one asset, one allowance is `less`; all others are as they were. */
  ghost predicate OneAllowance(w: World, w': World, asset: Address, owner: Address, spender: Address, less: nat) {
    && Allowed(w', asset, owner, spender) + less == Allowed(w, asset, owner, spender)
    && (forall b, o, s :: b != asset || o != owner || s != spender ==> Allowed(w', b, o, s) == Allowed(w, b, o, s))
  }

  ghost predicate SameAllowances(w: World, w': World) {
    forall b, o, s :: Allowed(w', b, o, s) == Allowed(w, b, o, s)
  }

  // ---------- payouts ----------

  /** The holder's tokens are gone, custody falls, and one transaction with the next nonce goes to the receiver's members. */
  ghost predicate PayoutMade(w: World, w': World, holder: Address, receiver: Address, asset: Address, amount: nat, extra: bytes) {
    && asset in w.assets && receiver in w.users && SameRegistry(w, w')
    && w'.log == w.log + [MixinTransaction(w.outbound, w.users[receiver], w.assets[asset], amount, extra)]
    && w'.outbound == w.outbound + 1
    && OneHolding(w, w', asset, holder, 0, amount) && OneCustody(w, w', w.assets[asset], 0, amount)
  }

  lemma TokenSet(w: World, w': World, asset: Address, user: Address, t: Token, more: nat, less: nat)
    requires asset in w.tokens && w'.tokens == w.tokens[asset := t]
    requires Balance(t, user) + less == Balance(w.tokens[asset], user) + more && t.totalSupply + less == w.tokens[asset].totalSupply + more
    requires forall o :: o != user ==> Balance(t, o) == Balance(w.tokens[asset], o)
    ensures OneHolding(w, w', asset, user, more, less)
    ensures t.allowed == w.tokens[asset].allowed ==> SameAllowances(w, w')
  {
    hide Balance;
  }

  lemma PayoutExactly(env: Env, w: World, user: Address, asset: Address, amount: nat, extra: bytes, accepts: bool)
    requires Inv(env, w) && asset in w.assets && user in w.users
    ensures var r := BurnAndSend(env, w, user, asset, amount, extra, accepts);
      && (r.Some? <==> Held(w, asset, user) >= amount && w.outbound + 1 < U64 && (NamesStorage(env.pid, extra) ==> accepts))
      && (r.Some? ==> PayoutMade(w, r.value, user, user, asset, amount, Truncated(env.pid, extra)) && SameAllowances(w, r.value))
  {
    hide Owing, Burned, Sound, NamesStorage, Truncated, Balance, OneHolding, SameAllowances;
    ReadBooks(env, w, asset);
    BurnAndSendOk(env, map[], w, user, asset, amount, extra, accepts);
    BalanceIs(w.tokens[asset], user);
    var r := BurnAndSend(env, w, user, asset, amount, extra, accepts);
    if r.Some? {
      var t := Burned(w.tokens[asset], user, amount).value;
      forall o ensures o != user ==> Balance(t, o) == Balance(w.tokens[asset], o) {
        BurnedExactly(w.tokens[asset], user, amount, o);
      }
      BurnedExactly(w.tokens[asset], user, amount, user);
      TokenSet(w, r.value, asset, user, t, 0, amount);
    }
  }

  lemma BalanceIs(t: Token, owner: Address)
    ensures Balance(t, owner) == Get(t.balances, owner)
  {
  }

  /** A claim pays the caller out, if it is a user contract that holds the amount. */
  lemma ClaimExactly(env: Env, w: World, sender: Address, asset: Address, amount: nat)
    requires Inv(env, w)
    ensures Exec(env, w, ClaimCall(sender, asset, amount)) == Claim(env, w, sender, asset, amount)
    ensures var r := Claim(env, w, sender, asset, amount);
      && (r.Some? <==> sender in w.users && asset in w.assets && Held(w, asset, sender) >= amount && w.outbound + 1 < U64)
      && (r.Some? ==> PayoutMade(w, r.value, sender, sender, asset, amount, []) && SameAllowances(w, r.value))
  {
    hide Owing, BurnAndSend, PayoutMade, Held, SameAllowances;
    NothingNamed(env.pid);
    if sender in w.users && asset in w.assets {
      PayoutExactly(env, w, sender, asset, amount, [], true);
    }
  }

  /** A burn asked for by an asset contract pays a user contract out, and does nothing for other holders. */
  lemma BurnExactly(env: Env, w: World, asset: Address, user: Address, amount: nat, extra: bytes, accepts: bool)
    requires Inv(env, w)
    ensures var r := Exec(env, w, BurnCall(asset, user, amount, extra, accepts));
      && (r.Some? <==> (asset in w.assets && (user in w.users ==> Held(w, asset, user) >= amount && w.outbound + 1 < U64 && (NamesStorage(env.pid, extra) ==> accepts))))
      && (r.Some? ==>
           if user in w.users then PayoutMade(w, r.value, user, user, asset, amount, Truncated(env.pid, extra)) && SameAllowances(w, r.value)
           else r.value == w)
  {
    hide Owing, BurnAndSend, PayoutMade, Held, SameAllowances, NamesStorage, Truncated;
    if user in w.users && asset in w.assets {
      PayoutExactly(env, w, user, asset, amount, extra, accepts);
    }
  }

  lemma NothingNamed(pid: nat)
    ensures !NamesStorage(pid, []) && Truncated(pid, []) == []
  {
  }

  // ---------- transfers ----------

  /** One holder's tokens become another's; to oneself nothing changes. */
  ghost predicate HoldingMoved(w: World, w': World, asset: Address, from: Address, to: Address, value: nat) {
    && (from != to ==> Held(w', asset, from) + value == Held(w, asset, from) && Held(w', asset, to) == Held(w, asset, to) + value)
    && (from == to ==> Held(w', asset, from) == Held(w, asset, from))
    && (forall b, o :: b != asset || (o != from && o != to) ==> Held(w', b, o) == Held(w, b, o))
    && (forall b :: Supply(w', b) == Supply(w, b))
  }

  /** Tokens moved to a user contract are paid out to its members; moved to anyone else they are held there. */
  ghost predicate Transferred(w: World, w': World, asset: Address, from: Address, to: Address, value: nat, extra: bytes) {
    if to in w.users then PayoutMade(w, w', from, to, asset, value, extra)
    else SameRegistry(w, w') && w'.log == w.log && w'.outbound == w.outbound && w'.custody == w.custody && HoldingMoved(w, w', asset, from, to, value)
  }

  lemma TokenMoved(w: World, asset: Address, t: Token, from: Address, to: Address, value: nat)
    requires asset in w.tokens && t.totalSupply == w.tokens[asset].totalSupply
    requires from != to ==> Balance(t, from) + value == Balance(w.tokens[asset], from) && Balance(t, to) == Balance(w.tokens[asset], to) + value
    requires from == to ==> Balance(t, from) == Balance(w.tokens[asset], from)
    requires forall o :: o != from && o != to ==> Balance(t, o) == Balance(w.tokens[asset], o)
    ensures HoldingMoved(w, WithToken(w, asset, t), asset, from, to, value)
    ensures t.allowed == w.tokens[asset].allowed ==> SameAllowances(w, WithToken(w, asset, t))
  {
    hide Balance;
  }

  /** Moving and then paying out */
  lemma MovedThenPaid(w: World, w0: World, w': World, asset: Address, from: Address, to: Address, value: nat, extra: bytes)
    requires HoldingMoved(w, w0, asset, from, to, value) && w0 == w.(tokens := w0.tokens) && PayoutMade(w0, w', to, to, asset, value, extra)
    ensures PayoutMade(w, w', from, to, asset, value, extra)
  {
    hide Held, Supply, Custody;
    assert forall x :: Custody(w0, x) == Custody(w, x) by {
      CustodySame(w, w0);
    }
  }

  lemma CustodySame(w: World, w': World)
    requires w'.custody == w.custody
    ensures forall x :: Custody(w', x) == Custody(w, x)
  {
  }

  /** What follows a token move, by `transfer` or `transferFrom` */
  lemma AfterMove(env: Env, w: World, asset: Address, t: Token, from: Address, to: Address, value: nat, extra: bytes, accepts: bool)
    requires Inv(env, w) && asset in w.assets && asset in w.tokens && Sound(t) && t.totalSupply == w.tokens[asset].totalSupply
    requires HoldingMoved(w, WithToken(w, asset, t), asset, from, to, value) && Balance(t, to) >= value
    ensures var r := RegistryBurn(env, WithToken(w, asset, t), asset, to, value, extra, accepts);
      && (r.Some? <==> (to in w.users ==> w.outbound + 1 < U64 && (NamesStorage(env.pid, extra) ==> accepts)))
      && (r.Some? ==> Transferred(w, r.value, asset, from, to, value, Truncated(env.pid, extra)) && SameAllowances(WithToken(w, asset, t), r.value))
  {
    hide Owing, HoldingMoved, BurnAndSend, PayoutMade, Balance, NamesStorage, Truncated;
    var w0 := WithToken(w, asset, t);
    SameSupplyOk(env, map[], w, asset, t);
    if to in w.users {
      PayoutExactly(env, w0, to, asset, value, extra, accepts);
      var r := BurnAndSend(env, w0, to, asset, value, extra, accepts);
      if r.Some? {
        MovedThenPaid(w, w0, r.value, asset, from, to, value, Truncated(env.pid, extra));
      }
    }
  }

  lemma TransferExactly(env: Env, w: World, sender: Address, asset: Address, to: Address, value: nat, extra: bytes, accepts: bool)
    requires Inv(env, w) && asset in w.assets
    ensures Exec(env, w, TransferCall(sender, asset, to, value, extra, accepts)) == Transfer(env, w, sender, asset, to, value, extra, accepts)
    ensures var r := Transfer(env, w, sender, asset, to, value, extra, accepts);
      && (r.Some? <==> Held(w, asset, sender) >= value && (to in w.users ==> w.outbound + 1 < U64 && (NamesStorage(env.pid, extra) ==> accepts)))
      && (r.Some? ==> Transferred(w, r.value, asset, sender, to, value, Truncated(env.pid, extra)) && SameAllowances(w, r.value))
  {
    hide Owing, Moved, RegistryBurn, Transferred, NamesStorage, Truncated, HoldingMoved, Sound, Balance, Allowed;
    ReadBooks(env, w, asset);
    var t := w.tokens[asset];
    MovedSound(t, sender, to, value);
    MovedExactly(t, sender, to, value, sender);
    var moved := Moved(t, sender, to, value);
    if moved.Some? {
      forall o ensures o != sender && o != to ==> Balance(moved.value, o) == Balance(t, o) {
        MovedExactly(t, sender, to, value, o);
      }
      TokenMoved(w, asset, moved.value, sender, to, value);
      BalanceIs(moved.value, to);
      AfterMove(env, w, asset, moved.value, sender, to, value, extra, accepts);
    }
  }

  /** The same for another's tokens, which uses up the caller's allowance. */
  lemma TransferFromExactly(env: Env, w: World, sender: Address, asset: Address, from: Address, to: Address, value: nat)
    requires Inv(env, w) && asset in w.assets
    ensures Exec(env, w, TransferFromCall(sender, asset, from, to, value)) == TransferFrom(env, w, sender, asset, from, to, value)
    ensures var r := TransferFrom(env, w, sender, asset, from, to, value);
      && (r.Some? <==> Held(w, asset, from) >= value && Allowed(w, asset, from, sender) >= value && (to in w.users ==> w.outbound + 1 < U64))
      && (r.Some? ==> Transferred(w, r.value, asset, from, to, value, []) && OneAllowance(w, r.value, asset, from, sender, value))
  {
    hide Owing, MovedFrom, Moved, RegistryBurn, Transferred, HoldingMoved, Sound, Balance, Allowance;
    ReadBooks(env, w, asset);
    NothingNamed(env.pid);
    var t := w.tokens[asset];
    MovedFromSound(t, sender, from, to, value);
    MovedExactly(t, from, to, value, from);
    MovedFromExactly(t, sender, from, to, value, from, from, sender);
    var moved := MovedFrom(t, sender, from, to, value);
    if moved.Some? {
      forall o ensures Balance(moved.value, o) == Balance(Moved(t, from, to, value).value, o)
        ensures o != from && o != to ==> Balance(moved.value, o) == Balance(t, o)
      {
        MovedExactly(t, from, to, value, o);
        MovedFromExactly(t, sender, from, to, value, o, from, sender);
      }
      forall o: Address, s: Address ensures Allowance(moved.value, o, s) == Allowance(t, o, s) - if (o, s) == (from, sender) then value else 0 {
        MovedFromExactly(t, sender, from, to, value, from, o, s);
      }
      TokenMoved(w, asset, moved.value, from, to, value);
      BalanceIs(moved.value, to);
      AfterMove(env, w, asset, moved.value, from, to, value, [], true);
      AllowanceUsed(w, asset, moved.value, from, sender, value);
    }
  }

  lemma AllowanceUsed(w: World, asset: Address, t: Token, owner: Address, spender: Address, value: nat)
    requires asset in w.tokens && Allowance(w.tokens[asset], owner, spender) >= value
    requires forall o: Address, s: Address :: Allowance(t, o, s) == Allowance(w.tokens[asset], o, s) - if (o, s) == (owner, spender) then value else 0
    ensures OneAllowance(w, WithToken(w, asset, t), asset, owner, spender, value)
  {
    hide Allowance;
  }

  /** An approval sets one allowance. */
  lemma ApproveExactly(env: Env, w: World, sender: Address, asset: Address, spender: Address, value: nat)
    requires Inv(env, w) && asset in w.assets
    ensures Exec(env, w, ApproveCall(sender, asset, spender, value)) == Approve(w, sender, asset, spender, value)
    ensures var r := Approve(w, sender, asset, spender, value);
      && (r.Some? <==> value == 0 || Allowed(w, asset, sender, spender) == 0)
      && (r.Some? ==>
           var w' := r.value;
           && SameRegistry(w, w') && w'.log == w.log && w'.outbound == w.outbound && w'.custody == w.custody
           && (forall b, o :: Held(w', b, o) == Held(w, b, o)) && (forall b :: Supply(w', b) == Supply(w, b))
           && Allowed(w', asset, sender, spender) == value
           && forall b, o, s :: b != asset || o != sender || s != spender ==> Allowed(w', b, o, s) == Allowed(w, b, o, s))
  {
    hide Owing;
    ReadBooks(env, w, asset);
  }

  // ---------- accepted events ----------

  /** Creating contracts changes no holding. */
  ghost predicate SameHoldings(w: World, w': World) {
    && (forall b, o :: Held(w', b, o) == Held(w, b, o)) && (forall b :: Supply(w', b) == Supply(w, b)) && SameAllowances(w, w')
    && w'.custody == w.custody && w'.log == w.log && StatusOf(w') == StatusOf(w)
  }

  /** No contract is ever lost or changed, and the log only grows. */
  ghost predicate Keeps(w: World, w': World) {
    && (forall u :: u in w.users ==> u in w'.users && w'.users[u] == w.users[u])
    && (forall a :: a in w.assets ==> a in w'.assets && w'.assets[a] == w.assets[a])
    && w.log <= w'.log
  }

  lemma UserHoldings(env: Env, w: World, members: bytes)
    ensures SameHoldings(w, GetOrCreateUser(env, w, members).0) && Keeps(w, GetOrCreateUser(env, w, members).0)
  {
  }

  lemma AssetHoldings(env: Env, w: World, id: nat, symbol: bytes, name: bytes)
    requires w.tokens.Keys == w.assets.Keys
    ensures SameHoldings(w, GetOrCreateAsset(env, w, id, symbol, name).0) && Keeps(w, GetOrCreateAsset(env, w, id, symbol, name).0)
  {
  }

  /** What the user contract is run with: the event's input, or what its storage holds. */
  function InputOf(env: Env, r: Inbound, stored: Option<bytes>): Option<bytes> {
    if |r.input| == 68 && FromBE(r.input[..16]) == env.pid then stored else Some(r.input)
  }

  /** When an event is accepted */
  ghost predicate Welcome(env: Env, w: World, raw: bytes, stored: Option<bytes>) {
    && !w.halted && ParseInbound(env.pid, raw).Some?
    && var r := ParseInbound(env.pid, raw).value;
    && r.nonce == w.inbound && w.inbound + 1 < U64 && InputOf(env, r, stored).Some?
    && env.verify(r.sig, w.group, r.message) && Custody(w, r.asset) + r.amount < U256
  }

  /** What accepting it does */
  ghost predicate EventBooked(w: World, w': World, user: Address, asset: Address, r: Inbound, input: bytes) {
    && user in w'.users && w'.users[user] == r.block && asset in w'.assets && w'.assets[asset] == r.asset && Keeps(w, w')
    && w'.log == w.log + [MixinEvent(r.nonce, user, asset, r.amount, input, r.timestamp, r.asset, r.sig, r.message)]
    && w'.inbound == w.inbound + 1 && w'.outbound == w.outbound && w'.group == w.group && !w'.halted
    && OneHolding(w, w', asset, user, r.amount, 0) && OneCustody(w, w', r.asset, r.amount, 0) && SameAllowances(w, w')
  }

  lemma CreditedBooks(env: Env, w: World, user: Address, asset: Address, r: Inbound, input: bytes, t: Token)
    requires Inv(env, w) && asset in w.assets && asset in w.tokens && w.assets[asset] == r.asset && user in w.users && w.users[user] == r.block
    requires !w.halted && r.nonce == w.inbound && Minted(w.tokens[asset], user, r.amount) == Some(t)
    ensures EventBooked(w, Credited(w, user, asset, r, input, t), user, asset, r, input)
  {
    hide Owing, Minted, Sound, Balance, OneHolding, SameAllowances;
    ReadBooks(env, w, asset);
    forall o ensures o != user ==> Balance(t, o) == Balance(w.tokens[asset], o) {
      MintedExactly(w.tokens[asset], user, r.amount, o);
    }
    MintedExactly(w.tokens[asset], user, r.amount, user);
    TokenSet(w, Credited(w, user, asset, r, input, t), asset, user, t, r.amount, 0);
  }

  /** Creating contracts first makes no difference. */
  lemma BookedAfter(w: World, w0: World, w': World, user: Address, asset: Address, r: Inbound, input: bytes)
    requires SameHoldings(w, w0) && Keeps(w, w0) && EventBooked(w0, w', user, asset, r, input)
    ensures EventBooked(w, w', user, asset, r, input)
  {
    hide Held, Supply, Allowed, Custody;
    CustodySame(w, w0);
  }

  lemma HoldingsTwice(w: World, w1: World, w2: World)
    requires SameHoldings(w, w1) && SameHoldings(w1, w2) && Keeps(w, w1) && Keeps(w1, w2)
    ensures SameHoldings(w, w2) && Keeps(w, w2)
  {
    hide Held, Supply, Allowed;
  }

  lemma AcceptExactly(env: Env, w: World, raw: bytes, stored: Option<bytes>)
    requires env.Ideal() && Inv(env, w)
    ensures var a := Accept(env, w, raw, stored);
      && (a.Some? <==> Welcome(env, w, raw, stored))
      && (a.Some? ==>
           var r := ParseInbound(env.pid, raw).value;
           && a.value.3 == r.amount && Some(a.value.4) == InputOf(env, r, stored) && Inv(env, a.value.0)
           && EventBooked(w, a.value.0, a.value.1, a.value.2, r, a.value.4))
  {
    hide Owing, ParseInbound, GetOrCreateUser, GetOrCreateAsset, Minted, SameHoldings, Keeps, EventBooked, Sound, FromBE, Credited;
    AcceptOk(env, map[], w, raw, stored);
    if ParseInbound(env.pid, raw).Some? {
      var r := ParseInbound(env.pid, raw).value;
      ParsedAssetBounds(env.pid, raw);
      CreateUserOk(env, map[], w, r.block);
      var (w1, user) := GetOrCreateUser(env, w, r.block);
      UserHoldings(env, w, r.block);
      CreateAssetOk(env, map[], w1, r.asset, r.symbol, r.name);
      var (w2, asset) := GetOrCreateAsset(env, w1, r.asset, r.symbol, r.name);
      TokensOfAssets(env, w1);
      AssetHoldings(env, w1, r.asset, r.symbol, r.name);
      HoldingsTwice(w, w1, w2);
      ReadBooks(env, w2, asset);
      MintedSound(w2.tokens[asset], user, r.amount);
      if Accept(env, w, raw, stored).Some? {
        var t := Minted(w2.tokens[asset], user, r.amount).value;
        CreditedBooks(env, w2, user, asset, r, Accept(env, w, raw, stored).value.4, t);
        BookedAfter(w, w2, Accept(env, w, raw, stored).value.0, user, asset, r, Accept(env, w, raw, stored).value.4);
      }
    }
  }

  lemma TokensOfAssets(env: Env, w: World)
    requires Inv(env, w)
    ensures w.tokens.Keys == w.assets.Keys
  {
    hide Conserved, Bridged, Replay, Covered;
    KnownAsset(env, w, 0);
  }

  // ---------- where an event's amount goes ----------

  /** Nobody holds more or less than before, and neither does the registry. */
  ghost predicate NothingHeldMore(w: World, w': World) {
    && (forall b, o :: Held(w', b, o) == Held(w, b, o)) && (forall b :: Supply(w', b) == Supply(w, b))
    && forall id :: Custody(w', id) == Custody(w, id)
  }

  /**
    An event that lists no calls goes straight back: if the outbound counter is not used
    up, its amount is logged in and out to the same members, and nobody holds more or less than before.
   */
  lemma PlainEventReturns(env: Env, w: World, raw: bytes, stored: Option<bytes>, behaviours: seq<Behaviour>)
    requires env.Ideal() && Inv(env, w) && Accept(env, w, raw, stored).Some? && !Interprets(Accept(env, w, raw, stored).value.4)
    ensures var e := Exec(env, w, MixinCall(raw, stored, behaviours));
      var (w1, user, asset, amount, input), r := Accept(env, w, raw, stored).value, ParseInbound(env.pid, raw).value;
      && (e.Some? <==> w.outbound + 1 < U64)
      && (e.Some? ==>
           var w' := e.value;
           && w'.log == w.log + [MixinEvent(r.nonce, user, asset, r.amount, input, r.timestamp, r.asset, r.sig, r.message),
                                 MixinTransaction(w.outbound, r.block, r.asset, r.amount, [])]
           && w'.inbound == w.inbound + 1 && w'.outbound == w.outbound + 1 && NothingHeldMore(w, w'))
  {
    hide Owing, Accept, Claim, ParseInbound, Interprets, Keeps, SameAllowances;
    AcceptExactly(env, w, raw, stored);
    var (w1, user, asset, amount, input) := Accept(env, w, raw, stored).value;
    ClaimExactly(env, w1, user, asset, amount);
    PlainExec(env, w, raw, stored, behaviours);
    var r := ParseInbound(env.pid, raw).value;
    var claimed := Claim(env, w1, user, asset, amount);
    if claimed.Some? {
      ThereAndBack(w, w1, claimed.value, user, asset, r.amount);
    }
  }

  lemma PlainExec(env: Env, w: World, raw: bytes, stored: Option<bytes>, behaviours: seq<Behaviour>)
    requires Accept(env, w, raw, stored).Some? && !Interprets(Accept(env, w, raw, stored).value.4)
    ensures var a := Accept(env, w, raw, stored).value;
      Exec(env, w, MixinCall(raw, stored, behaviours)) == Claim(env, a.0, a.1, a.2, a.3)
  {
    hide Accept, Claim, Interprets, RunProcesses;
  }

  lemma ThereAndBack(w: World, w1: World, w': World, user: Address, asset: Address, amount: nat)
    requires asset in w1.assets && OneHolding(w, w1, asset, user, amount, 0) && OneCustody(w, w1, w1.assets[asset], amount, 0)
    requires OneHolding(w1, w', asset, user, 0, amount) && OneCustody(w1, w', w1.assets[asset], 0, amount)
    ensures NothingHeldMore(w, w')
  {
    hide Held, Supply, Custody;
  }

  // ---------- call trees lose nothing ----------

  lemma KeepsTwice(w: World, w1: World, w2: World)
    requires Keeps(w, w1) && Keeps(w1, w2)
    ensures Keeps(w, w2)
  {
  }

  lemma AssetKeeps(env: Env, w: World, id: nat, symbol: bytes, name: bytes)
    ensures Keeps(w, GetOrCreateAsset(env, w, id, symbol, name).0)
  {
  }

  lemma PayoutKeeps(env: Env, w: World, user: Address, asset: Address, amount: nat, extra: bytes, accepts: bool)
    ensures var r := BurnAndSend(env, w, user, asset, amount, extra, accepts); r.Some? ==> Keeps(w, r.value)
  {
    hide Burned, NamesStorage, Truncated;
  }

  lemma TokenKeeps(w: World, asset: Address, t: Token)
    ensures Keeps(w, WithToken(w, asset, t))
  {
  }

  lemma BurnKeeps(env: Env, w: World, sender: Address, user: Address, amount: nat, extra: bytes, accepts: bool)
    ensures var r := RegistryBurn(env, w, sender, user, amount, extra, accepts); r.Some? ==> Keeps(w, r.value)
  {
    hide BurnAndSend;
    PayoutKeeps(env, w, user, sender, amount, extra, accepts);
  }

  lemma ClaimKeeps(env: Env, w: World, sender: Address, asset: Address, amount: nat)
    ensures var r := Claim(env, w, sender, asset, amount); r.Some? ==> Keeps(w, r.value)
  {
    hide BurnAndSend, Keeps;
    PayoutKeeps(env, w, sender, asset, amount, [], true);
  }

  lemma ApproveKeeps(w: World, sender: Address, asset: Address, spender: Address, value: nat)
    ensures var r := Approve(w, sender, asset, spender, value); r.Some? ==> Keeps(w, r.value)
  {
    hide Approved;
  }

  lemma AcceptKeeps(env: Env, w: World, raw: bytes, stored: Option<bytes>)
    ensures var a := Accept(env, w, raw, stored); a.Some? ==> Keeps(w, a.value.0)
  {
    hide ParseInbound, GetOrCreateUser, GetOrCreateAsset, Minted, NamesStorage;
    if Accept(env, w, raw, stored).Some? {
      var r := ParseInbound(env.pid, raw).value;
      UserHoldings(env, w, r.block);
      AssetKeeps(env, GetOrCreateUser(env, w, r.block).0, r.asset, r.symbol, r.name);
    }
  }

  /** A call that makes no further ones */
  lemma LeafKeeps(env: Env, w: World, call: Call)
    requires !call.MixinCall?
    ensures var r := Exec(env, w, call); r.Some? ==> Keeps(w, r.value)
  {
    hide BurnAndSend, RegistryBurn, Claim, Approve, Moved, MovedFrom, Word, ToBE, Keeps;
    match call
    case TransferCall(sender, asset, to, value, extra, accepts) =>
      if asset in w.tokens && Moved(w.tokens[asset], sender, to, value).Some? {
        var t := Moved(w.tokens[asset], sender, to, value).value;
        MoveKeeps(env, w, asset, t, to, value, extra, accepts);
      }
    case TransferFromCall(sender, asset, from, to, value) =>
      if asset in w.tokens && MovedFrom(w.tokens[asset], sender, from, to, value).Some? {
        var t := MovedFrom(w.tokens[asset], sender, from, to, value).value;
        MoveKeeps(env, w, asset, t, to, value, [], true);
      }
    case ApproveCall(sender, asset, spender, value) => ApproveKeeps(w, sender, asset, spender, value);
    case ClaimCall(sender, asset, amount) => ClaimKeeps(env, w, sender, asset, amount);
    case BurnCall(sender, user, amount, extra, accepts) => BurnKeeps(env, w, sender, user, amount, extra, accepts);
    case HaltCall(sig) => GroupKeeps(env, w, sig, []);
    case IterateCall(raw) => GroupKeeps(env, w, (0, 0), raw);
  }

  lemma MoveKeeps(env: Env, w: World, asset: Address, t: Token, to: Address, value: nat, extra: bytes, accepts: bool)
    ensures var r := RegistryBurn(env, WithToken(w, asset, t), asset, to, value, extra, accepts); r.Some? ==> Keeps(w, r.value)
  {
    hide RegistryBurn, Keeps, WithToken;
    TokenKeeps(w, asset, t);
    BurnKeeps(env, WithToken(w, asset, t), asset, to, value, extra, accepts);
    var r := RegistryBurn(env, WithToken(w, asset, t), asset, to, value, extra, accepts);
    if r.Some? {
      KeepsTwice(w, WithToken(w, asset, t), r.value);
    }
  }

  lemma GroupKeeps(env: Env, w: World, sig: Sig, raw: bytes)
    ensures Halt(env, w, sig).Some? ==> Keeps(w, Halt(env, w, sig).value)
    ensures Iterate(env, w, raw).Some? ==> Keeps(w, Iterate(env, w, raw).value)
  {
    hide Word, ToBE;
  }

  lemma {:induction false} ExecKeeps(env: Env, w: World, call: Call)
    ensures Exec(env, w, call).Some? ==> Keeps(w, Exec(env, w, call).value)
    decreases call, 0
  {
    hide Keeps, Accept, Claim, RunProcesses, FromBE;
    if !call.MixinCall? {
      LeafKeeps(env, w, call);
    } else {
      var accepted := Accept(env, w, call.raw, call.stored);
      AcceptKeeps(env, w, call.raw, call.stored);
      if accepted.Some? {
        var (w1, user, asset, amount, input) := accepted.value;
        ClaimKeeps(env, w1, user, asset, amount);
        ClaimedKeeps(env, w, w1, user, asset, amount);
        if Interprets(input) {
          RunKeeps(env, w1, user, asset, amount, input, 2, FromBE(input[..2]), call.behaviours);
          var ran := RunProcesses(env, w1, user, asset, amount, input, 2, FromBE(input[..2]), call.behaviours);
          if ran.Some? {
            KeepsTwice(w, w1, ran.value);
            ClaimedKeeps(env, w, ran.value, user, asset, amount);
          }
        }
      }
    }
  }

  lemma ClaimedKeeps(env: Env, w: World, w1: World, user: Address, asset: Address, amount: nat)
    requires Keeps(w, w1)
    ensures var r := Claim(env, w1, user, asset, amount); r.Some? ==> Keeps(w, r.value)
  {
    hide Keeps, Claim;
    ClaimKeeps(env, w1, user, asset, amount);
    var r := Claim(env, w1, user, asset, amount);
    if r.Some? {
      KeepsTwice(w, w1, r.value);
    }
  }

  lemma {:induction false} RunKeeps(env: Env, w: World, user: Address, asset: Address, amount: nat, input: bytes,
                                    offset: nat, count: nat, behaviours: seq<Behaviour>)
    ensures var r := RunProcesses(env, w, user, asset, amount, input, offset, count, behaviours); r.Some? ==> Keeps(w, r.value)
    decreases behaviours, 1
  {
    hide Keeps, ApproveFirst, EntryAt, FromBE, ExecAll;
    SelfKeeps(w);
    if offset < |input| && offset + 20 <= |input| {
      var process := FromBE(input[offset..offset + 20]);
      var approved := if offset == 2 then ApproveFirst(w, user, asset, process, amount) else Some(w);
      ApproveFirstKeeps(w, user, asset, process, amount);
      if approved.Some? && behaviours != [] && count > 0 {
        var entry := EntryAt(input, offset);
        if entry.Complete? && behaviours[0].succeeds {
          var w2 := ExecAll(env, approved.value, behaviours[0].calls);
          AllKeep(env, approved.value, behaviours[0].calls);
          KeepsTwice(w, approved.value, w2);
          RunKeeps(env, w2, user, asset, amount, input, entry.next, count - 1, behaviours[1..]);
          var r := RunProcesses(env, w2, user, asset, amount, input, entry.next, count - 1, behaviours[1..]);
          if r.Some? {
            KeepsTwice(w, w2, r.value);
          }
        }
      }
    }
  }

  lemma SelfKeeps(w: World)
    ensures Keeps(w, w)
  {
  }

  lemma ApproveFirstKeeps(w: World, user: Address, asset: Address, process: Address, amount: nat)
    ensures var r := ApproveFirst(w, user, asset, process, amount); r.Some? ==> Keeps(w, r.value)
  {
    hide Keeps, Approve;
    ApproveKeeps(w, user, asset, process, 0);
    var first := Approve(w, user, asset, process, 0);
    if first.Some? {
      ApproveKeeps(first.value, user, asset, process, amount);
      var second := Approve(first.value, user, asset, process, amount);
      if second.Some? {
        KeepsTwice(w, first.value, second.value);
      }
    }
  }

  lemma {:induction false} AllKeep(env: Env, w: World, calls: seq<Call>)
    ensures Keeps(w, ExecAll(env, w, calls))
    decreases calls, 0
  {
    hide Keeps, Exec;
    SelfKeeps(w);
    if calls != [] {
      ExecKeeps(env, w, calls[0]);
      var r := Exec(env, w, calls[0]);
      var w1 := if r.Some? then r.value else w;
      AllKeep(env, w1, calls[1..]);
      KeepsTwice(w, w1, ExecAll(env, w1, calls[1..]));
    }
  }

  // ---------- events that list calls ----------

  /** After the calls the user's amount is claimed: paid out if the user still holds it, and left where the calls put it if not. */
  lemma InterpretedEventSettles(env: Env, w: World, raw: bytes, stored: Option<bytes>, behaviours: seq<Behaviour>)
    requires env.Ideal() && Inv(env, w) && Accept(env, w, raw, stored).Some? && Interprets(Accept(env, w, raw, stored).value.4)
    ensures var e := Exec(env, w, MixinCall(raw, stored, behaviours));
      var (w1, user, asset, amount, input), r := Accept(env, w, raw, stored).value, ParseInbound(env.pid, raw).value;
      var ran := RunProcesses(env, w1, user, asset, amount, input, 2, FromBE(input[..2]), behaviours);
      && (e.Some? <==> ran.Some?)
      && (ran.Some? ==>
           var w2 := ran.value;
           if Held(w2, asset, user) >= amount && w2.outbound + 1 < U64
           then PayoutMade(w2, e.value, user, user, asset, amount, [])
                && e.value.log == w2.log + [MixinTransaction(w2.outbound, r.block, r.asset, r.amount, [])]
           else e.value == w2)
  {
    hide Owing, Accept, Claim, ParseInbound, RunProcesses, Keeps, FromBE, Held, OneHolding, OneCustody, SameAllowances;
    AcceptExactly(env, w, raw, stored);
    var (w1, user, asset, amount, input) := Accept(env, w, raw, stored).value;
    RunProcessesOk(env, map[], w1, user, asset, amount, input, 2, FromBE(input[..2]), behaviours);
    RunKeeps(env, w1, user, asset, amount, input, 2, FromBE(input[..2]), behaviours);
    var ran := RunProcesses(env, w1, user, asset, amount, input, 2, FromBE(input[..2]), behaviours);
    ListedExec(env, w, raw, stored, behaviours);
    if ran.Some? {
      KeptOnes(w1, ran.value, user, asset);
      ClaimExactly(env, ran.value, user, asset, amount);
    }
  }

  lemma KeptOnes(w: World, w': World, user: Address, asset: Address)
    requires Keeps(w, w') && user in w.users && asset in w.assets
    ensures user in w'.users && w'.users[user] == w.users[user] && asset in w'.assets && w'.assets[asset] == w.assets[asset]
  {
  }

  lemma ListedExec(env: Env, w: World, raw: bytes, stored: Option<bytes>, behaviours: seq<Behaviour>)
    requires Accept(env, w, raw, stored).Some? && Interprets(Accept(env, w, raw, stored).value.4)
    ensures var (w1, user, asset, amount, input) := Accept(env, w, raw, stored).value;
      var ran := RunProcesses(env, w1, user, asset, amount, input, 2, FromBE(input[..2]), behaviours);
      Exec(env, w, MixinCall(raw, stored, behaviours)) ==
        if ran.None? then None
        else var claimed := Claim(env, ran.value, user, asset, amount); if claimed.Some? then claimed else ran
  {
    hide Accept, Claim, RunProcesses, FromBE;
  }

  /** The first process called may spend the event's amount of the user's tokens, and nothing else has changed when it is called. */
  lemma FirstProcessMaySpend(env: Env, w: World, user: Address, asset: Address, amount: nat, process: Address)
    requires Inv(env, w) && asset in w.assets
    ensures var r := ApproveFirst(w, user, asset, process, amount);
      && r.Some? && Allowed(r.value, asset, user, process) == amount
      && (forall b, o, s :: b != asset || o != user || s != process ==> Allowed(r.value, b, o, s) == Allowed(w, b, o, s))
      && (forall b, o :: Held(r.value, b, o) == Held(w, b, o)) && SameRegistry(w, r.value) && r.value.log == w.log
  {
    hide Owing, Approve, Held, Allowed, Supply;
    ApproveExactly(env, w, user, asset, process, 0);
    var first := Approve(w, user, asset, process, 0).value;
    ApproveOk(env, map[], w, user, asset, process, 0);
    ApproveExactly(env, first, user, asset, process, amount);
  }

  /** What each process does is done in the world its predecessor left, the first one in the world with the approval. */
  lemma ProcessesInOrder(env: Env, w: World, user: Address, asset: Address, amount: nat, input: bytes, offset: nat, count: nat, behaviours: seq<Behaviour>)
    requires EntryAt(input, offset).Complete? && count > 0 && behaviours != [] && behaviours[0].succeeds
    requires offset == 2 ==> ApproveFirst(w, user, asset, EntryAt(input, offset).process, amount).Some?
    ensures var entry := EntryAt(input, offset);
      var w0 := if offset == 2 then ApproveFirst(w, user, asset, entry.process, amount).value else w;
      RunProcesses(env, w, user, asset, amount, input, offset, count, behaviours) ==
      RunProcesses(env, ExecAll(env, w0, behaviours[0].calls), user, asset, amount, input, entry.next, count - 1, behaviours[1..])
  {
    hide ApproveFirst, ExecAll, FromBE;
  }

  /** An entry that is cut short, or a process that fails, ends the list there. */
  lemma ProcessesStop(env: Env, w: World, user: Address, asset: Address, amount: nat, input: bytes, offset: nat, count: nat, behaviours: seq<Behaviour>)
    requires offset + 20 <= |input| && (EntryAt(input, offset).Incomplete? || behaviours == [] || !behaviours[0].succeeds)
    ensures var process := FromBE(input[offset..offset + 20]);
      RunProcesses(env, w, user, asset, amount, input, offset, count, behaviours) ==
        if offset == 2 then ApproveFirst(w, user, asset, process, amount) else Some(w)
  {
    hide ApproveFirst, EntryAt, FromBE, ExecAll;
  }

  // ---------- the group key ----------

  /** A key change as its sender writes it: the new key, the old group's signature, the new group's signature. */
  function KeyChange(message: bytes, previous: Sig, next: Sig): bytes {
    message + (ToBE(previous.0, 32) + (ToBE(previous.1, 32) + (ToBE(next.0, 32) + ToBE(next.1, 32))))
  }

  lemma WordAt(raw: bytes, i: nat, x: nat)
    requires 32 * (i + 1) <= |raw| && x < U256 && raw[32 * i..32 * (i + 1)] == ToBE(x, 32)
    ensures Word(raw, i) == x
  {
    hide ToBE, FromBE, Pow256;
    Pow256Words();
    FromToBE(x, 32);
  }

  lemma KeyParts(message: bytes, a: bytes, b: bytes, c: bytes, d: bytes)
    requires |message| == 128 && |a| == |b| == |c| == |d| == 32
    ensures var raw := message + (a + (b + (c + d)));
      raw[128..160] == a && raw[160..192] == b && raw[192..224] == c && raw[224..256] == d
  {
    var raw := message + (a + (b + (c + d)));
    assert raw[128..] == a + (b + (c + d));
    assert raw[160..] == b + (c + d);
    assert raw[192..] == c + d;
  }

  /** It is taken exactly while halted, if the old group signed the new key and the new group did too, each in its place. */
  lemma IterateExactly(env: Env, w: World, message: bytes, previous: Sig, next: Sig)
    requires |message| == 128 && previous.0 < U256 && previous.1 < U256 && next.0 < U256 && next.1 < U256
    ensures forall raw :: Exec(env, w, IterateCall(raw)) == Iterate(env, w, raw)
    ensures var key := (Word(message, 0), Word(message, 1), Word(message, 2), Word(message, 3));
      var r := Iterate(env, w, KeyChange(message, previous, next));
      && (r.Some? <==> w.halted && env.verify(previous, w.group, message) && env.verify(next, key, message))
      && (r.Some? ==> r.value == w.(group := key, log := w.log + [Iterated(w.group, key, message, previous, next)]))
  {
    hide ToBE, FromBE;
    var raw := KeyChange(message, previous, next);
    assert |raw| == 256 && raw[..128] == message;
    forall i: nat | i < 4 ensures raw[32 * i..32 * (i + 1)] == message[32 * i..32 * (i + 1)] {
      assert raw[32 * i..32 * (i + 1)] == raw[..128][32 * i..32 * (i + 1)];
    }
    KeyParts(message, ToBE(previous.0, 32), ToBE(previous.1, 32), ToBE(next.0, 32), ToBE(next.1, 32));
    WordAt(raw, 4, previous.0);
    WordAt(raw, 5, previous.1);
    WordAt(raw, 6, next.0);
    WordAt(raw, 7, next.1);
  }

  /**
    A halt succeeds exactly if the group signed the tag and the count of events so far. It
    turns the switch, so the events and key changes of `Welcome` and `IterateExactly` that
    it shut out or let through change places, and touches nothing else.
   */
  lemma HaltExactly(env: Env, w: World, sig: Sig, raw: bytes, stored: Option<bytes>)
    ensures Exec(env, w, HaltCall(sig)) == Halt(env, w, sig)
    ensures Halt(env, w, sig).Some? <==> env.verify(sig, w.group, HALT_TAG + ToBE(w.inbound, 8))
    ensures Halt(env, w, sig).Some? ==>
      var w' := Halt(env, w, sig).value;
      && w'.halted != w.halted && w' == w.(halted := w'.halted, log := w.log + [Halted(w'.halted, sig, w.inbound)])
      && (w.halted ==> Iterate(env, w', raw).None?)
      && (!w.halted ==> !Welcome(env, w', raw, stored) && Accept(env, w', raw, stored).None?)
  {
    hide ToBE, ParseInbound, Word;
    if Halt(env, w, sig).Some? && !w.halted {
      assert Accept(env, Halt(env, w, sig).value, raw, stored).None?;
    }
  }
}
