/**
  The asset contract: one fungible token whose supply the registry mints and
  burns. Arithmetic is checked 256-bit arithmetic; `None` is a revert.
 */
module AssetToken {
  import opened Bytes
  import opened Sums

  datatype Token = Token(balances: map<Address, nat>, allowed: map<(Address, Address), nat>, totalSupply: nat)

  const NEW_TOKEN := Token(map[], map[], 0)

  /** The supply is what the holders hold, and it fits a word. */
  ghost predicate Sound(t: Token) {
    t.totalSupply == Total(t.balances) < U256
  }

  /** `_transfer`: subtract, then add; the receiver may be the sender. */
  function Moved(t: Token, from: Address, to: Address, value: nat): Option<Token> {
    if Get(t.balances, from) < value then None
    else
      var b := t.balances[from := Get(t.balances, from) - value];
      if Get(b, to) + value >= U256 then None
      else Some(t.(balances := b[to := Get(b, to) + value]))
  }

  /** `_transferFrom` */
  function MovedFrom(t: Token, sender: Address, from: Address, to: Address, value: nat): Option<Token> {
    var allowance := Get(t.allowed, (from, sender));
    if allowance < value then None
    else Moved(t.(allowed := t.allowed[(from, sender) := allowance - value]), from, to, value)
  }

  /** `approve`: an allowance is only set from or to zero. */
  function Approved(t: Token, sender: Address, spender: Address, value: nat): Option<Token> {
    if value != 0 && Get(t.allowed, (sender, spender)) != 0 then None
    else Some(t.(allowed := t.allowed[(sender, spender) := value]))
  }

  function Minted(t: Token, to: Address, value: nat): Option<Token> {
    if Get(t.balances, to) + value >= U256 || t.totalSupply + value >= U256 then None
    else Some(t.(balances := t.balances[to := Get(t.balances, to) + value], totalSupply := t.totalSupply + value))
  }

  function Burned(t: Token, from: Address, value: nat): Option<Token> {
    if Get(t.balances, from) < value || t.totalSupply < value then None
    else Some(t.(balances := t.balances[from := Get(t.balances, from) - value], totalSupply := t.totalSupply - value))
  }

  /** A transfer keeps the supply and fails only for lack of balance. */
  lemma MovedSound(t: Token, from: Address, to: Address, value: nat)
    requires Sound(t)
    ensures Moved(t, from, to, value).None? <==> Get(t.balances, from) < value
    ensures Moved(t, from, to, value).Some? ==>
      var t' := Moved(t, from, to, value).value;
      && Sound(t') && t'.totalSupply == t.totalSupply && t'.allowed == t.allowed
      && Get(t'.balances, to) >= value
  {
    if Get(t.balances, from) >= value {
      var b := t.balances[from := Get(t.balances, from) - value];
      TotalSet(t.balances, from, Get(t.balances, from) - value);
      TotalSet(b, to, Get(b, to) + value);
    }
  }

  lemma MovedFromSound(t: Token, sender: Address, from: Address, to: Address, value: nat)
    requires Sound(t)
    ensures MovedFrom(t, sender, from, to, value).None? <==>
      Get(t.balances, from) < value || Get(t.allowed, (from, sender)) < value
    ensures MovedFrom(t, sender, from, to, value).Some? ==>
      var t' := MovedFrom(t, sender, from, to, value).value;
      && Sound(t') && t'.totalSupply == t.totalSupply && Get(t'.balances, to) >= value
  {
    var allowance := Get(t.allowed, (from, sender));
    if allowance >= value {
      MovedSound(t.(allowed := t.allowed[(from, sender) := allowance - value]), from, to, value);
    }
  }

  /** Minting fails only when the supply would leave the word. */
  lemma MintedSound(t: Token, to: Address, value: nat)
    requires Sound(t)
    ensures Minted(t, to, value).None? <==> t.totalSupply + value >= U256
    ensures Minted(t, to, value).Some? ==>
      Sound(Minted(t, to, value).value) && Minted(t, to, value).value.totalSupply == t.totalSupply + value
  {
    TotalSet(t.balances, to, Get(t.balances, to) + value);
  }

  /** Burning fails only for lack of balance: the supply always covers it. */
  lemma BurnedSound(t: Token, from: Address, value: nat)
    requires Sound(t)
    ensures Burned(t, from, value).None? <==> Get(t.balances, from) < value
    ensures Burned(t, from, value).Some? ==>
      Sound(Burned(t, from, value).value) && Burned(t, from, value).value.totalSupply == t.totalSupply - value
  {
    if Get(t.balances, from) >= value {
      TotalSet(t.balances, from, Get(t.balances, from) - value);
    }
  }

  // ---------- who holds what afterwards ----------

  function Balance(t: Token, owner: Address): nat {
    Get(t.balances, owner)
  }

  function Allowance(t: Token, owner: Address, spender: Address): nat {
    Get(t.allowed, (owner, spender))
  }

  /** A transfer takes the value from the sender, gives it to the receiver, and touches nothing else; to oneself it changes nothing. */
  lemma MovedExactly(t: Token, from: Address, to: Address, value: nat, other: Address)
    requires Sound(t)
    ensures Moved(t, from, to, value).Some? <==> Balance(t, from) >= value
    ensures Moved(t, from, to, value).Some? ==>
      var t' := Moved(t, from, to, value).value;
      && (from != to ==> Balance(t', from) == Balance(t, from) - value && Balance(t', to) == Balance(t, to) + value)
      && (from == to ==> Balance(t', from) == Balance(t, from))
      && (other != from && other != to ==> Balance(t', other) == Balance(t, other))
      && t'.allowed == t.allowed && t'.totalSupply == t.totalSupply
  {
    MovedSound(t, from, to, value);
  }

  /** One for another also uses up that much of the allowance, and no other allowance. */
  lemma MovedFromExactly(t: Token, sender: Address, from: Address, to: Address, value: nat, other: Address, owner: Address, spender: Address)
    requires Sound(t)
    ensures MovedFrom(t, sender, from, to, value).Some? <==> Balance(t, from) >= value && Allowance(t, from, sender) >= value
    ensures MovedFrom(t, sender, from, to, value).Some? ==>
      var t' := MovedFrom(t, sender, from, to, value).value;
      && Balance(t', other) == Balance(Moved(t, from, to, value).value, other) && t'.totalSupply == t.totalSupply
      && Allowance(t', owner, spender) == Allowance(t, owner, spender) - if (owner, spender) == (from, sender) then value else 0
  {
    MovedFromSound(t, sender, from, to, value);
    MovedSound(t, from, to, value);
  }

  /** An approval sets the allowance of that owner for that spender, and nothing else; it is refused only from one positive value to another. */
  lemma ApprovedExactly(t: Token, sender: Address, spender: Address, value: nat, owner: Address, other: Address)
    ensures Approved(t, sender, spender, value).Some? <==> value == 0 || Allowance(t, sender, spender) == 0
    ensures Approved(t, sender, spender, value).Some? ==>
      var t' := Approved(t, sender, spender, value).value;
      && Allowance(t', sender, spender) == value && t'.balances == t.balances && t'.totalSupply == t.totalSupply
      && ((owner, other) != (sender, spender) ==> Allowance(t', owner, other) == Allowance(t, owner, other))
  {
  }

  /** Minting and burning change one balance and the supply by the value. */
  lemma MintedExactly(t: Token, to: Address, value: nat, other: Address)
    requires Sound(t)
    ensures Minted(t, to, value).Some? <==> t.totalSupply + value < U256
    ensures Minted(t, to, value).Some? ==>
      var t' := Minted(t, to, value).value;
      && Balance(t', to) == Balance(t, to) + value && t'.totalSupply == t.totalSupply + value && t'.allowed == t.allowed
      && (other != to ==> Balance(t', other) == Balance(t, other))
  {
    MintedSound(t, to, value);
  }

  lemma BurnedExactly(t: Token, from: Address, value: nat, other: Address)
    requires Sound(t)
    ensures Burned(t, from, value).Some? <==> Balance(t, from) >= value
    ensures Burned(t, from, value).Some? ==>
      var t' := Burned(t, from, value).value;
      && Balance(t', from) == Balance(t, from) - value && t'.totalSupply == t.totalSupply - value && t'.allowed == t.allowed
      && (other != from ==> Balance(t', other) == Balance(t, other))
  {
    BurnedSound(t, from, value);
  }

  /** The contract object. Each method returns false, with nothing changed, where the contract reverts. */
  class Asset {
    const registry: Address
    var balances: map<Address, nat>
    var allowed: map<(Address, Address), nat>
    var totalSupply: nat

    ghost function State(): Token
      reads this
    {
      Token(balances, allowed, totalSupply)
    }

    constructor (registry: Address)
      ensures this.registry == registry && State() == NEW_TOKEN && Sound(State())
    {
      this.registry := registry;
      balances, allowed, totalSupply := map[], map[], 0;
    }

    method Transfer(sender: Address, to: Address, value: nat) returns (ok: bool)
      modifies this
      ensures var r := Moved(old(State()), sender, to, value); ok == r.Some? && State() == if ok then r.value else old(State())
      ensures Sound(old(State())) ==> Sound(State())
    {
      if Sound(State()) {
        MovedSound(State(), sender, to, value);
      }
      hide Sound;
      if Get(balances, sender) < value {
        return false;
      }
      var before := balances;
      balances := balances[sender := Get(balances, sender) - value];
      if Get(balances, to) + value >= U256 {
        balances := before;
        return false;
      }
      balances := balances[to := Get(balances, to) + value];
      return true;
    }

    method TransferFrom(sender: Address, from: Address, to: Address, value: nat) returns (ok: bool)
      modifies this
      ensures var r := MovedFrom(old(State()), sender, from, to, value); ok == r.Some? && State() == if ok then r.value else old(State())
      ensures Sound(old(State())) ==> Sound(State())
    {
      if Sound(State()) {
        MovedFromSound(State(), sender, from, to, value);
      }
      hide Sound;
      var allowance := Get(allowed, (from, sender));
      if allowance < value {
        return false;
      }
      var before := allowed;
      allowed := allowed[(from, sender) := allowance - value];
      ok := Transfer(from, to, value);
      if !ok {
        allowed := before;
      }
    }

    method Approve(sender: Address, spender: Address, value: nat) returns (ok: bool)
      modifies this
      ensures var r := Approved(old(State()), sender, spender, value); ok == r.Some? && State() == if ok then r.value else old(State())
      ensures Sound(old(State())) ==> Sound(State())
    {
      if !(value == 0 || Get(allowed, (sender, spender)) == 0) {
        return false;
      }
      allowed := allowed[(sender, spender) := value];
      return true;
    }

    method Mint(sender: Address, to: Address, value: nat) returns (ok: bool)
      modifies this
      ensures var r := Minted(old(State()), to, value);
        ok == (sender == registry && r.Some?) && State() == if ok then r.value else old(State())
      ensures Sound(old(State())) ==> Sound(State())
    {
      if Sound(State()) {
        MintedSound(State(), to, value);
      }
      hide Sound;
      if sender != registry || Get(balances, to) + value >= U256 || totalSupply + value >= U256 {
        return false;
      }
      balances := balances[to := Get(balances, to) + value];
      totalSupply := totalSupply + value;
      return true;
    }

    method Burn(sender: Address, from: Address, value: nat) returns (ok: bool)
      modifies this
      ensures var r := Burned(old(State()), from, value);
        ok == (sender == registry && r.Some?) && State() == if ok then r.value else old(State())
      ensures Sound(old(State())) ==> Sound(State())
    {
      if Sound(State()) {
        BurnedSound(State(), from, value);
      }
      hide Sound;
      if sender != registry || Get(balances, from) < value || totalSupply < value {
        return false;
      }
      balances := balances[from := Get(balances, from) - value];
      totalSupply := totalSupply - value;
      return true;
    }
  }
}
