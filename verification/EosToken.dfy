/**
  The token contract on EOS. A transfer to an account bound to the multisig group
  takes the amount from the sender and queues an inline action that retires it
  from the supply. An action that fails undoes its whole transaction.
 */
module EosToken {
  import opened Bytes
  import opened Sums

  type Name = string
  type Code = string

  datatype Symbol = Symbol(code: Code, precision: nat)
  datatype Quantity = Quantity(amount: int, symbol: Symbol)
  datatype Row = Row(amount: nat, symbol: Symbol)
  datatype Stats = Stats(supply: int, max: int, symbol: Symbol, issuer: Name)

  type Stat = map<Code, Stats>
  type Rows = map<(Name, Code), Row>

  /** What the master account is asked to send out of the chain */
  datatype Request = Request(from: Name, to: Name, quantity: Quantity, memo: string)

  /**
    The tables, the `retireex` actions sent but not yet run, and the transfer requests
    sent. `outside` is history: what `retireex` actions took that no transfer had sent.
   */
  datatype Bank = Bank(stat: Stat, rows: Rows, queue: seq<Quantity>, requests: seq<Request>, outside: map<Code, nat>)

  const MAX_AMOUNT := 0x3FFF_FFFF_FFFF_FFFF
  const MASTER_ACCOUNT: Name := "mixincrossss"

  predicate ValidSymbol(s: Symbol) {
    0 < |s.code| <= 7 && s.precision <= 18 && forall i :: 0 <= i < |s.code| ==> 'A' <= s.code[i] <= 'Z'
  }

  predicate ValidQuantity(q: Quantity) {
    -MAX_AMOUNT <= q.amount <= MAX_AMOUNT && ValidSymbol(q.symbol)
  }

  /** A positive quantity of an existing token. */
  predicate Known(stat: Stat, q: Quantity) {
    && ValidQuantity(q) && q.amount > 0
    && q.symbol.code in stat && stat[q.symbol.code].symbol == q.symbol
  }

  // ---------- the tables ----------

  predicate Covered(rows: Rows, owner: Name, q: Quantity) {
    (owner, q.symbol.code) in rows && rows[(owner, q.symbol.code)].amount >= q.amount
  }

  function Sub(rows: Rows, owner: Name, q: Quantity): Rows
    requires Covered(rows, owner, q)
  {
    var k := (owner, q.symbol.code);
    rows[k := rows[k].(amount := rows[k].amount - q.amount)]
  }

  function Add(rows: Rows, owner: Name, q: Quantity): Rows
    requires q.amount >= 0
  {
    var k := (owner, q.symbol.code);
    rows[k := if k in rows then rows[k].(amount := rows[k].amount + q.amount) else Row(q.amount, q.symbol)]
  }

  function Supplied(stat: Stat, q: Quantity, sign: int): Stat
    requires q.symbol.code in stat
  {
    var st := stat[q.symbol.code];
    stat[q.symbol.code := st.(supply := st.supply + sign * q.amount)]
  }

  // ---------- the actions ----------

  /** `auth` holds the accounts that signed; whether the receiver exists and is bound to the group is read elsewhere. */
  datatype Action =
    | Create(auth: set<Name>, issuer: Name, maximum: Quantity)
    | Issue(auth: set<Name>, to: Name, quantity: Quantity, memo: string)
    | Retire(auth: set<Name>, quantity: Quantity, memo: string)
    | RetireEx(auth: set<Name>, quantity: Quantity, memo: string)
    | Transfer(auth: set<Name>, from: Name, to: Name, quantity: Quantity, memo: string, isAccount: bool, bound: bool)
    | Open(auth: set<Name>, owner: Name, symbol: Symbol, payer: Name, isAccount: bool)
    | Close(auth: set<Name>, owner: Name, symbol: Symbol)

  /** `retireex` lowers the supply only. */
  function RetiredEx(self: Name, b: Bank, auth: set<Name>, q: Quantity, memo: string): Option<Bank> {
    if self !in auth || |memo| > 256 || !Known(b.stat, q) then None
    else Some(b.(stat := Supplied(b.stat, q, -1)))
  }

  /** The new tables, or nothing if a check of the action fails. */
  function Apply(self: Name, b: Bank, action: Action): Option<Bank> {
    match action
    case Create(auth, issuer, maximum) =>
      if self !in auth || !ValidQuantity(maximum) || maximum.amount <= 0 || maximum.symbol.code in b.stat then None
      else Some(b.(stat := b.stat[maximum.symbol.code := Stats(0, maximum.amount, maximum.symbol, issuer)]))
    case Issue(auth, to, q, memo) =>
      if |memo| > 256 || !Known(b.stat, q) then None else
      var st := b.stat[q.symbol.code];
      if to != st.issuer || st.issuer !in auth || q.amount > st.max - st.supply then None
      else Some(b.(stat := Supplied(b.stat, q, 1), rows := Add(b.rows, to, q)))
    case Retire(auth, q, memo) =>
      if |memo| > 256 || !Known(b.stat, q) then None else
      var issuer := b.stat[q.symbol.code].issuer;
      if issuer !in auth || !Covered(b.rows, issuer, q) then None
      else Some(b.(stat := Supplied(b.stat, q, -1), rows := Sub(b.rows, issuer, q)))
    case RetireEx(auth, q, memo) =>
      var b' :- RetiredEx(self, b, auth, q, memo);
      Some(b'.(outside := b.outside[q.symbol.code := Get(b.outside, q.symbol.code) + q.amount]))
    case Transfer(auth, from, to, q, memo, isAccount, bound) =>
      if from == to || from !in auth || !isAccount || !Known(b.stat, q) || |memo| > 256 || !Covered(b.rows, from, q) then None
      else if from == MASTER_ACCOUNT || !bound then Some(b.(rows := Add(Sub(b.rows, from, q), to, q)))
      else Some(b.(rows := Sub(b.rows, from, q), queue := b.queue + [q], requests := b.requests + [Request(from, to, q, memo)]))
    case Open(auth, owner, symbol, payer, isAccount) =>
      if payer !in auth || !isAccount || symbol.code !in b.stat || b.stat[symbol.code].symbol != symbol then None
      else Some(if (owner, symbol.code) in b.rows then b else b.(rows := b.rows[(owner, symbol.code) := Row(0, symbol)]))
    case Close(auth, owner, symbol) =>
      var k := (owner, symbol.code);
      if owner !in auth || k !in b.rows || b.rows[k].amount != 0 then None
      else Some(b.(rows := b.rows - {k}))
  }

  /** The first queued action, which the contract itself signs. */
  function Inline(self: Name, b: Bank): Option<Bank>
    requires b.queue != []
  {
    RetiredEx(self, b.(queue := b.queue[1..]), {self}, b.queue[0], "retire for transfer out")
  }

  // ---------- whole runs ----------

  datatype Step = Act(action: Action) | RunInline | Commit | Abort

  /** The tables as last committed, and as the current transaction has them. */
  datatype Chain = Chain(saved: Bank, now: Bank)

  /** A failure, here or in another contract, undoes the transaction; it commits once nothing is queued. */
  function Next(self: Name, c: Chain, step: Step): Chain {
    match step
    case Act(action) =>
      var r := Apply(self, c.now, action);
      c.(now := if r.Some? then r.value else c.saved)
    case RunInline =>
      if c.now.queue == [] then c else
        var r := Inline(self, c.now);
        c.(now := if r.Some? then r.value else c.saved)
    case Commit => if c.now.queue == [] then c.(saved := c.now) else c
    case Abort => c.(now := c.saved)
  }

  const EMPTY_BANK := Bank(map[], map[], [], [], map[])

  function Run(self: Name, steps: seq<Step>): Chain {
    if steps == [] then Chain(EMPTY_BANK, EMPTY_BANK)
    else Next(self, Run(self, steps[..|steps| - 1]), steps[|steps| - 1])
  }

  // ---------- the contract ----------

  class Token {
    const self: Name
    var stat: Stat
    var rows: Rows
    var queue: seq<Quantity>
    var requests: seq<Request>
    ghost var outside: map<Code, nat>

    ghost function State(): Bank
      reads this
    {
      Bank(stat, rows, queue, requests, outside)
    }

    /** The state after an action, which a failed check leaves as it was. */
    twostate predicate Did(r: Option<Bank>, ok: bool)
      reads this
    {
      ok == r.Some? && State() == if ok then r.value else old(State())
    }

    constructor (self: Name)
      ensures this.self == self && State() == EMPTY_BANK
    {
      this.self := self;
      stat, rows, queue, requests, outside := map[], map[], [], [], map[];
    }

    method SubBalance(owner: Name, value: Quantity) returns (ok: bool)
      modifies this`rows
      ensures ok <==> Covered(old(rows), owner, value)
      ensures rows == if ok then Sub(old(rows), owner, value) else old(rows)
    {
      var k := (owner, value.symbol.code);
      if k !in rows || rows[k].amount < value.amount {
        return false;
      }
      rows := rows[k := rows[k].(amount := rows[k].amount - value.amount)];
      return true;
    }

    method AddBalance(owner: Name, value: Quantity)
      requires value.amount >= 0
      modifies this`rows
      ensures rows == Add(old(rows), owner, value)
    {
      var k := (owner, value.symbol.code);
      if k !in rows {
        rows := rows[k := Row(value.amount, value.symbol)];
      } else {
        rows := rows[k := rows[k].(amount := rows[k].amount + value.amount)];
      }
    }

    method Create(auth: set<Name>, issuer: Name, maximum: Quantity) returns (ok: bool)
      modifies this`stat
      ensures Did(Apply(self, old(State()), Action.Create(auth, issuer, maximum)), ok)
      ensures Inv(old(State())) ==> Inv(State())
    {
      ApplyKept(self, State(), Action.Create(auth, issuer, maximum));
      hide Inv;
      var code := maximum.symbol.code;
      if self !in auth || !ValidQuantity(maximum) || maximum.amount <= 0 || code in stat {
        return false;
      }
      stat := stat[code := Stats(0, maximum.amount, maximum.symbol, issuer)];
      return true;
    }

    method Issue(auth: set<Name>, to: Name, quantity: Quantity, memo: string) returns (ok: bool)
      modifies this`stat, this`rows
      ensures Did(Apply(self, old(State()), Action.Issue(auth, to, quantity, memo)), ok)
      ensures Inv(old(State())) ==> Inv(State())
    {
      ApplyKept(self, State(), Action.Issue(auth, to, quantity, memo));
      hide Inv;
      var code := quantity.symbol.code;
      if |memo| > 256 || code !in stat || !ValidQuantity(quantity) || quantity.amount <= 0 || quantity.symbol != stat[code].symbol {
        return false;
      }
      var item := stat[code];
      if to != item.issuer || item.issuer !in auth || quantity.amount > item.max - item.supply {
        return false;
      }
      stat := stat[code := item.(supply := item.supply + quantity.amount)];
      AddBalance(to, quantity);
      return true;
    }

    method Retire(auth: set<Name>, quantity: Quantity, memo: string) returns (ok: bool)
      modifies this`stat, this`rows
      ensures Did(Apply(self, old(State()), Action.Retire(auth, quantity, memo)), ok)
      ensures Inv(old(State())) ==> Inv(State())
    {
      ApplyKept(self, State(), Action.Retire(auth, quantity, memo));
      hide Inv;
      var code := quantity.symbol.code;
      if |memo| > 256 || code !in stat || !ValidQuantity(quantity) || quantity.amount <= 0 || quantity.symbol != stat[code].symbol {
        return false;
      }
      var item := stat[code];
      if item.issuer !in auth {
        return false;
      }
      ok := SubBalance(item.issuer, quantity);
      if ok {
        stat := stat[code := item.(supply := item.supply - quantity.amount)];
      }
    }

    method RetireSupply(auth: set<Name>, quantity: Quantity, memo: string) returns (ok: bool)
      modifies this`stat
      ensures Did(RetiredEx(self, old(State()), auth, quantity, memo), ok)
    {
      var code := quantity.symbol.code;
      if self !in auth || |memo| > 256 || code !in stat || !ValidQuantity(quantity) || quantity.amount <= 0 || quantity.symbol != stat[code].symbol {
        return false;
      }
      stat := stat[code := stat[code].(supply := stat[code].supply - quantity.amount)];
      return true;
    }

    /** `retireex` sent from outside */
    method RetireEx(auth: set<Name>, quantity: Quantity, memo: string) returns (ok: bool)
      modifies this`stat, this`outside
      ensures Did(Apply(self, old(State()), Action.RetireEx(auth, quantity, memo)), ok)
      ensures Inv(old(State())) ==> Inv(State())
    {
      ApplyKept(self, State(), Action.RetireEx(auth, quantity, memo));
      hide Inv;
      ok := RetireSupply(auth, quantity, memo);
      if ok {
        outside := outside[quantity.symbol.code := Get(outside, quantity.symbol.code) + quantity.amount];
      }
    }

    /** `retireex` as a transfer sent it */
    method RunQueued() returns (ok: bool)
      requires queue != []
      modifies this`stat, this`queue
      ensures ok == Inline(self, old(State())).Some?
      ensures ok ==> State() == Inline(self, old(State())).value
      ensures Inv(old(State())) ==> ok && Inv(State())
    {
      ghost var start := State();
      if Inv(start) {
        InlineKeepsInv(self, start);
      }
      hide Inv;
      var first := queue[0];
      queue := queue[1..];
      ok := RetireSupply({self}, first, "retire for transfer out");
    }

    method Transfer(auth: set<Name>, from: Name, to: Name, quantity: Quantity, memo: string, isAccount: bool, bound: bool) returns (ok: bool)
      modifies this`rows, this`queue, this`requests
      ensures Did(Apply(self, old(State()), Action.Transfer(auth, from, to, quantity, memo, isAccount, bound)), ok)
      ensures Inv(old(State())) ==> Inv(State())
    {
      ApplyKept(self, State(), Action.Transfer(auth, from, to, quantity, memo, isAccount, bound));
      hide Inv;
      var code := quantity.symbol.code;
      if from == to || from !in auth || !isAccount || code !in stat || |memo| > 256
        || !ValidQuantity(quantity) || quantity.amount <= 0 || quantity.symbol != stat[code].symbol {
        return false;
      }
      ok := SubBalance(from, quantity);
      if !ok {
        return;
      }
      if from == MASTER_ACCOUNT || !bound {
        AddBalance(to, quantity);
      } else {
        queue := queue + [quantity];
        requests := requests + [Request(from, to, quantity, memo)];
      }
    }

    method Open(auth: set<Name>, owner: Name, symbol: Symbol, payer: Name, isAccount: bool) returns (ok: bool)
      modifies this`rows
      ensures Did(Apply(self, old(State()), Action.Open(auth, owner, symbol, payer, isAccount)), ok)
      ensures Inv(old(State())) ==> Inv(State())
    {
      ApplyKept(self, State(), Action.Open(auth, owner, symbol, payer, isAccount));
      hide Inv;
      if payer !in auth || !isAccount || symbol.code !in stat || stat[symbol.code].symbol != symbol {
        return false;
      }
      if (owner, symbol.code) !in rows {
        rows := rows[(owner, symbol.code) := Row(0, symbol)];
      }
      return true;
    }

    method Close(auth: set<Name>, owner: Name, symbol: Symbol) returns (ok: bool)
      modifies this`rows
      ensures Did(Apply(self, old(State()), Action.Close(auth, owner, symbol)), ok)
      ensures Inv(old(State())) ==> Inv(State())
    {
      ApplyKept(self, State(), Action.Close(auth, owner, symbol));
      hide Inv;
      var k := (owner, symbol.code);
      if owner !in auth || k !in rows || rows[k].amount != 0 {
        return false;
      }
      rows := rows - {k};
      return true;
    }
  }

  // ---------- conservation ----------

  function Holdings(rows: Rows, code: Code): map<(Name, Code), nat> {
    map k | k in rows && k.1 == code :: rows[k].amount
  }

  ghost function Held(rows: Rows, code: Code): nat {
    Total(Holdings(rows, code))
  }

  /** What is queued to be retired. */
  function Queued(queue: seq<Quantity>, code: Code): int {
    if queue == [] then 0
    else (if queue[0].symbol.code == code then queue[0].amount else 0) + Queued(queue[1..], code)
  }

  /** Supplies, and what was taken from outside, are what is held and what is queued; supplies are within their maximum. */
  ghost predicate Conserved(stat: Stat, rows: Rows, queue: seq<Quantity>, outside: map<Code, nat>) {
    forall code :: code in stat ==>
      && stat[code].supply + Get(outside, code) == Held(rows, code) + Queued(queue, code)
      && stat[code].supply <= stat[code].max <= MAX_AMOUNT
  }

  /** Rows and queued quantities are of existing tokens, with their precision. */
  ghost predicate Typed(stat: Stat, rows: Rows, queue: seq<Quantity>, outside: map<Code, nat>) {
    && (forall code :: code in stat ==> stat[code].symbol.code == code)
    && (forall k :: k in rows ==> k.1 in stat && rows[k].symbol == stat[k.1].symbol)
    && (forall i :: 0 <= i < |queue| ==> Known(stat, queue[i]))
    && outside.Keys <= stat.Keys
  }

  ghost predicate Inv(b: Bank) {
    Conserved(b.stat, b.rows, b.queue, b.outside) && Typed(b.stat, b.rows, b.queue, b.outside)
  }

  lemma HeldSet(rows: Rows, k: (Name, Code), row: Row, code: Code)
    ensures Held(rows[k := row], code) == Held(rows, code) + if k.1 == code then row.amount - (if k in rows then rows[k].amount else 0) else 0
  {
    var part := Holdings(rows, code);
    if k.1 == code {
      assert Holdings(rows[k := row], code) == part[k := row.amount];
      TotalSet(part, k, row.amount);
    } else {
      assert Holdings(rows[k := row], code) == part;
    }
  }

  lemma HeldSub(rows: Rows, owner: Name, q: Quantity, code: Code)
    requires Covered(rows, owner, q)
    ensures Held(Sub(rows, owner, q), code) == Held(rows, code) - if q.symbol.code == code then q.amount else 0
  {
    hide Held;
    var k := (owner, q.symbol.code);
    HeldSet(rows, k, Sub(rows, owner, q)[k], code);
  }

  lemma HeldAdd(rows: Rows, owner: Name, q: Quantity, code: Code)
    requires q.amount >= 0
    ensures Held(Add(rows, owner, q), code) == Held(rows, code) + if q.symbol.code == code then q.amount else 0
  {
    hide Held;
    var k := (owner, q.symbol.code);
    HeldSet(rows, k, Add(rows, owner, q)[k], code);
  }

  lemma HeldClose(rows: Rows, k: (Name, Code), code: Code)
    requires k in rows && rows[k].amount == 0
    ensures Held(rows - {k}, code) == Held(rows, code)
  {
    var part := Holdings(rows, code);
    if k.1 == code {
      TotalRemove(part, k);
      assert Holdings(rows - {k}, code) == part - {k};
    } else {
      assert Holdings(rows - {k}, code) == part;
    }
  }

  /** A token just created has no rows and nothing queued. */
  lemma {:induction false} HeldNone(stat: Stat, rows: Rows, queue: seq<Quantity>, outside: map<Code, nat>, code: Code)
    requires Typed(stat, rows, queue, outside) && code !in stat
    ensures Held(rows, code) == 0 && Queued(queue, code) == 0
  {
    assert Holdings(rows, code) == map[];
    QueuedNone(queue, code);
  }

  lemma {:induction false} QueuedNone(queue: seq<Quantity>, code: Code)
    requires forall i :: 0 <= i < |queue| ==> queue[i].symbol.code != code
    ensures Queued(queue, code) == 0
  {
    if queue != [] {
      QueuedNone(queue[1..], code);
    }
  }

  lemma QueuedFirst(queue: seq<Quantity>, code: Code)
    requires queue != []
    ensures Queued(queue, code) == Queued(queue[1..], code) + if queue[0].symbol.code == code then queue[0].amount else 0
  {
  }

  lemma {:induction false} QueuedAppend(queue: seq<Quantity>, q: Quantity, code: Code)
    ensures Queued(queue + [q], code) == Queued(queue, code) + if q.symbol.code == code then q.amount else 0
  {
    if queue == [] {
      assert queue + [q] == [q];
    } else {
      QueuedAppend(queue[1..], q, code);
      assert (queue + [q])[1..] == queue[1..] + [q];
    }
  }

  lemma {:induction false} QueuedPositive(queue: seq<Quantity>, code: Code)
    requires forall i :: 0 <= i < |queue| ==> queue[i].amount > 0
    ensures Queued(queue, code) >= 0
  {
    if queue != [] {
      QueuedPositive(queue[1..], code);
    }
  }

  lemma CreateKeepsInv(b: Bank, maximum: Quantity, issuer: Name)
    requires Inv(b) && ValidQuantity(maximum) && maximum.amount > 0 && maximum.symbol.code !in b.stat
    ensures Inv(b.(stat := b.stat[maximum.symbol.code := Stats(0, maximum.amount, maximum.symbol, issuer)]))
  {
    hide Held, Queued, ValidSymbol;
    HeldNone(b.stat, b.rows, b.queue, b.outside, maximum.symbol.code);
  }

  lemma IssueKeepsInv(b: Bank, to: Name, q: Quantity)
    requires Inv(b) && Known(b.stat, q) && q.amount <= b.stat[q.symbol.code].max - b.stat[q.symbol.code].supply
    ensures Inv(b.(stat := Supplied(b.stat, q, 1), rows := Add(b.rows, to, q)))
  {
    hide Held, Queued, ValidSymbol, Get;
    forall code ensures Held(Add(b.rows, to, q), code) == Held(b.rows, code) + if q.symbol.code == code then q.amount else 0 {
      HeldAdd(b.rows, to, q, code);
    }
  }

  lemma RetireKeepsInv(b: Bank, issuer: Name, q: Quantity)
    requires Inv(b) && Known(b.stat, q) && Covered(b.rows, issuer, q)
    ensures Inv(b.(stat := Supplied(b.stat, q, -1), rows := Sub(b.rows, issuer, q)))
  {
    hide Held, Queued, ValidSymbol, Get;
    forall code ensures Held(Sub(b.rows, issuer, q), code) == Held(b.rows, code) - if q.symbol.code == code then q.amount else 0 {
      HeldSub(b.rows, issuer, q, code);
    }
  }

  lemma OpenKeepsInv(b: Bank, owner: Name, symbol: Symbol)
    requires Inv(b) && symbol.code in b.stat && b.stat[symbol.code].symbol == symbol && (owner, symbol.code) !in b.rows
    ensures Inv(b.(rows := b.rows[(owner, symbol.code) := Row(0, symbol)]))
  {
    hide Held, Queued, ValidSymbol, Get;
    forall code ensures Held(b.rows[(owner, symbol.code) := Row(0, symbol)], code) == Held(b.rows, code) {
      HeldSet(b.rows, (owner, symbol.code), Row(0, symbol), code);
    }
  }

  lemma CloseKeepsInv(b: Bank, k: (Name, Code))
    requires Inv(b) && k in b.rows && b.rows[k].amount == 0
    ensures Inv(b.(rows := b.rows - {k}))
  {
    hide Held, Queued, ValidSymbol, Get;
    forall code ensures Held(b.rows - {k}, code) == Held(b.rows, code) {
      HeldClose(b.rows, k, code);
    }
  }

  lemma RetireExKeepsInv(self: Name, b: Bank, auth: set<Name>, q: Quantity, memo: string)
    requires Inv(b) && Apply(self, b, RetireEx(auth, q, memo)).Some?
    ensures Inv(Apply(self, b, RetireEx(auth, q, memo)).value)
  {
    hide Held, Queued, ValidSymbol;
  }

  /** Every action keeps the invariant. */
  lemma ApplyKeepsInv(self: Name, b: Bank, action: Action)
    requires Inv(b) && Apply(self, b, action).Some?
    ensures Inv(Apply(self, b, action).value)
  {
    hide Inv, Covered, Sub, Add, Supplied, ValidSymbol;
    match action
    case Create(auth, issuer, maximum) => CreateKeepsInv(b, maximum, issuer);
    case Issue(auth, to, q, memo) => IssueKeepsInv(b, to, q);
    case Retire(auth, q, memo) => RetireKeepsInv(b, b.stat[q.symbol.code].issuer, q);
    case RetireEx(auth, q, memo) => RetireExKeepsInv(self, b, auth, q, memo);
    case Transfer(auth, from, to, q, memo, isAccount, bound) => TransferKeepsInv(b, from, to, q);
    case Open(auth, owner, symbol, payer, isAccount) =>
      if (owner, symbol.code) !in b.rows {
        OpenKeepsInv(b, owner, symbol);
      }
    case Close(auth, owner, symbol) => CloseKeepsInv(b, (owner, symbol.code));
  }

  lemma ApplyKept(self: Name, b: Bank, action: Action)
    ensures Inv(b) && Apply(self, b, action).Some? ==> Inv(Apply(self, b, action).value)
  {
    hide Inv, Apply;
    if Inv(b) && Apply(self, b, action).Some? {
      ApplyKeepsInv(self, b, action);
    }
  }

  lemma TransferKeepsInv(b: Bank, from: Name, to: Name, q: Quantity)
    requires Inv(b) && Known(b.stat, q) && Covered(b.rows, from, q)
    ensures Inv(b.(rows := Add(Sub(b.rows, from, q), to, q)))
    ensures forall requests :: Inv(b.(rows := Sub(b.rows, from, q), queue := b.queue + [q], requests := requests))
  {
    hide Held, Queued, ValidSymbol, Get;
    forall code ensures
      && Held(Sub(b.rows, from, q), code) == Held(b.rows, code) - (if q.symbol.code == code then q.amount else 0)
      && Held(Add(Sub(b.rows, from, q), to, q), code) == Held(b.rows, code)
      && Queued(b.queue + [q], code) == Queued(b.queue, code) + (if q.symbol.code == code then q.amount else 0)
    {
      HeldSub(b.rows, from, q, code);
      HeldAdd(Sub(b.rows, from, q), to, q, code);
      QueuedAppend(b.queue, q, code);
    }
  }

  /** A queued action never fails and keeps the invariant. */
  lemma InlineKeepsInv(self: Name, b: Bank)
    requires Inv(b) && b.queue != []
    ensures Inline(self, b).Some? && Inv(Inline(self, b).value)
  {
    hide Held, Queued, ValidSymbol, Get;
    var rest := b.queue[1..];
    var q := b.queue[0];
    assert Known(b.stat, q);
    forall code | code in b.stat
      ensures Queued(b.queue, code) == Queued(rest, code) + if q.symbol.code == code then q.amount else 0
    {
      QueuedFirst(b.queue, code);
    }
  }

  // ---------- main results ----------

  lemma {:induction false} RunKeepsInv(self: Name, steps: seq<Step>)
    ensures Inv(Run(self, steps).saved) && Run(self, steps).saved.queue == [] && Inv(Run(self, steps).now)
  {
    if steps != [] {
      hide Inv, Apply, Inline;
      var c := Run(self, steps[..|steps| - 1]);
      var step := steps[|steps| - 1];
      RunKeepsInv(self, steps[..|steps| - 1]);
      if step.Act? && Apply(self, c.now, step.action).Some? {
        ApplyKeepsInv(self, c.now, step.action);
      } else if step.RunInline? && c.now.queue != [] {
        InlineKeepsInv(self, c.now);
      }
    }
  }

  /**
    In every run, supply and what `retireex` took from outside are what is held and what
    is queued. So supply is what is held and queued exactly where nothing was taken.
   */
  lemma SupplyAccounted(self: Name, steps: seq<Step>, code: Code)
    requires code in Run(self, steps).now.stat
    ensures var b := Run(self, steps).now;
      && b.stat[code].supply + Get(b.outside, code) == Held(b.rows, code) + Queued(b.queue, code)
      && b.stat[code].supply <= b.stat[code].max <= MAX_AMOUNT
      && (b.stat[code].supply == Held(b.rows, code) + Queued(b.queue, code) <==> Get(b.outside, code) == 0)
      && (Get(b.outside, code) == 0 ==> 0 <= b.stat[code].supply)
  {
    hide Held;
    RunKeepsInv(self, steps);
    QueuedPositive(Run(self, steps).now.queue, code);
  }

  /** Between transactions nothing is queued. */
  lemma CommittedSupplyIsHeld(self: Name, steps: seq<Step>, code: Code)
    requires code in Run(self, steps).saved.stat
    ensures var b := Run(self, steps).saved; b.stat[code].supply + Get(b.outside, code) == Held(b.rows, code)
  {
    hide Held;
    RunKeepsInv(self, steps);
  }

  /** No queued action is ever refused, so none undoes the transfer that sent it. */
  lemma QueuedNeverFails(self: Name, steps: seq<Step>)
    requires Run(self, steps).now.queue != []
    ensures Inline(self, Run(self, steps).now).Some?
  {
    hide Inline, Inv;
    RunKeepsInv(self, steps);
    InlineKeepsInv(self, Run(self, steps).now);
  }

  /** No action of the run is a `retireex` signed by the contract from outside. */
  ghost predicate OnlyQueued(self: Name, steps: seq<Step>) {
    forall i :: 0 <= i < |steps| && steps[i].Act? && steps[i].action.RetireEx? ==> self !in steps[i].action.auth
  }

  lemma {:induction false} NothingTaken(self: Name, steps: seq<Step>)
    requires OnlyQueued(self, steps)
    ensures Run(self, steps).saved.outside == map[] && Run(self, steps).now.outside == map[]
  {
    if steps != [] {
      hide Known, ValidQuantity, Covered, Sub, Add, Supplied;
      NothingTaken(self, steps[..|steps| - 1]);
    }
  }

  /** In every such run supply is what is held and queued, between zero and its maximum. */
  lemma SupplyConserved(self: Name, steps: seq<Step>, code: Code)
    requires OnlyQueued(self, steps) && code in Run(self, steps).now.stat
    ensures var b := Run(self, steps).now;
      b.stat[code].supply == Held(b.rows, code) + Queued(b.queue, code) && 0 <= b.stat[code].supply <= b.stat[code].max <= MAX_AMOUNT
  {
    hide Held, Queued, Run;
    NothingTaken(self, steps);
    SupplyAccounted(self, steps, code);
  }

  /** A run without that: a token is created, and the contract's account retires some of what was never issued. */
  lemma OutsideRetireExBreaks(self: Name, issuer: Name, q: Quantity, maximum: Quantity)
    requires ValidQuantity(maximum) && 0 < q.amount <= maximum.amount && q.symbol == maximum.symbol
    ensures var b := Run(self, [Act(Create({self}, issuer, maximum)), Act(RetireEx({self}, q, ""))]).now;
      && q.symbol.code in b.stat && b.stat[q.symbol.code].supply == -q.amount
      && Held(b.rows, q.symbol.code) == 0 && b.queue == []
  {
    hide ValidSymbol;
    var create, retire := Create({self}, issuer, maximum), RetireEx({self}, q, "");
    var steps := [Act(create), Act(retire)];
    RunOne(self, [], Act(create));
    RunOne(self, [Act(create)], Act(retire));
    assert [] + [Act(create)] == [Act(create)] && [Act(create)] + [Act(retire)] == steps;
    assert Run(self, []) == Chain(EMPTY_BANK, EMPTY_BANK);
    var b := Run(self, [Act(create)]).now;
    assert b.stat == map[maximum.symbol.code := Stats(0, maximum.amount, maximum.symbol, issuer)];
    assert Holdings(map[], q.symbol.code) == map[];
  }

  lemma RunOne(self: Name, steps: seq<Step>, step: Step)
    ensures Run(self, steps + [step]) == Next(self, Run(self, steps), step)
  {
    assert (steps + [step])[..|steps|] == steps;
  }

  // ---------- what each action does, and when it fails ----------

  function Balance(b: Bank, owner: Name, code: Code): nat {
    if (owner, code) in b.rows then b.rows[(owner, code)].amount else 0
  }

  function SupplyOf(b: Bank, code: Code): int {
    if code in b.stat then b.stat[code].supply else 0
  }

  /** A positive amount, within bounds, of a token that exists, with its precision */
  ghost predicate Tradable(b: Bank, q: Quantity) {
    && 0 < q.amount <= MAX_AMOUNT && ValidSymbol(q.symbol)
    && q.symbol.code in b.stat && b.stat[q.symbol.code].symbol == q.symbol
  }

  /** All balances but those of two owners in one token are as they were, and so are all tokens' terms. */
  ghost predicate OthersStay(b: Bank, b': Bank, code: Code, one: Name, two: Name) {
    && (forall o, x :: x != code || (o != one && o != two) ==> Balance(b', o, x) == Balance(b, o, x))
    && (forall x :: x != code ==> SupplyOf(b', x) == SupplyOf(b, x)) && SameTerms(b, b')
  }

  ghost predicate SameTerms(b: Bank, b': Bank) {
    && b'.stat.Keys == b.stat.Keys
    && forall x :: x in b.stat ==> b'.stat[x].max == b.stat[x].max && b'.stat[x].symbol == b.stat[x].symbol && b'.stat[x].issuer == b.stat[x].issuer
  }

  ghost predicate SameSent(b: Bank, b': Bank) {
    b'.queue == b.queue && b'.requests == b.requests
  }

  /**
    A transfer lowers the sender's balance. From the master account, or to a receiver that
    is not bound to the group, it raises the receiver's; to a bound one it queues the
    retirement and sends the request instead.
   */
  lemma TransferExactly(self: Name, b: Bank, auth: set<Name>, from: Name, to: Name, q: Quantity, memo: string, isAccount: bool, bound: bool)
    ensures var r := Apply(self, b, Transfer(auth, from, to, q, memo, isAccount, bound));
      var code := q.symbol.code;
      && (r.Some? <==> from != to && from in auth && isAccount && |memo| <= 256 && Tradable(b, q) && Balance(b, from, code) >= q.amount)
      && (r.Some? ==>
           var b' := r.value;
           && Balance(b', from, code) == Balance(b, from, code) - q.amount
           && OthersStay(b, b', code, from, to) && SupplyOf(b', code) == SupplyOf(b, code) && b'.outside == b.outside
           && (from == "mixincrossss" || !bound ==> Balance(b', to, code) == Balance(b, to, code) + q.amount && SameSent(b, b'))
           && (from != "mixincrossss" && bound ==>
                && Balance(b', to, code) == Balance(b, to, code)
                && b'.queue == b.queue + [q] && b'.requests == b.requests + [Request(from, to, q, memo)]))
  {
    hide ValidSymbol;
  }

  /** Issuing raises the issuer's balance and the supply, within the maximum; only the issuer may, and only to itself. */
  lemma IssueExactly(self: Name, b: Bank, auth: set<Name>, to: Name, q: Quantity, memo: string)
    ensures var r := Apply(self, b, Issue(auth, to, q, memo));
      var code := q.symbol.code;
      && (r.Some? <==> |memo| <= 256 && Tradable(b, q) && to == b.stat[code].issuer && to in auth && b.stat[code].supply + q.amount <= b.stat[code].max)
      && (r.Some? ==>
           var b' := r.value;
           && Balance(b', to, code) == Balance(b, to, code) + q.amount && SupplyOf(b', code) == SupplyOf(b, code) + q.amount
           && OthersStay(b, b', code, to, to) && SameSent(b, b') && b'.outside == b.outside)
  {
    hide ValidSymbol;
  }

  /** Retiring lowers the issuer's balance and the supply. */
  lemma RetireExactly(self: Name, b: Bank, auth: set<Name>, q: Quantity, memo: string)
    ensures var r := Apply(self, b, Retire(auth, q, memo));
      var code := q.symbol.code;
      && (r.Some? <==> |memo| <= 256 && Tradable(b, q) && b.stat[code].issuer in auth && Balance(b, b.stat[code].issuer, code) >= q.amount)
      && (r.Some? ==>
           var b', issuer := r.value, b.stat[code].issuer;
           && Balance(b', issuer, code) == Balance(b, issuer, code) - q.amount && SupplyOf(b', code) == SupplyOf(b, code) - q.amount
           && OthersStay(b, b', code, issuer, issuer) && SameSent(b, b') && b'.outside == b.outside)
  {
    hide ValidSymbol;
  }

  /** `retireex` lowers the supply and no balance; only the contract's own account may send it. */
  lemma RetireExExactly(self: Name, b: Bank, auth: set<Name>, q: Quantity, memo: string)
    ensures var r := Apply(self, b, RetireEx(auth, q, memo));
      var code := q.symbol.code;
      && (r.Some? <==> self in auth && |memo| <= 256 && Tradable(b, q))
      && (r.Some? ==>
           var b' := r.value;
           && SupplyOf(b', code) == SupplyOf(b, code) - q.amount && b'.rows == b.rows
           && (forall x :: x != code ==> SupplyOf(b', x) == SupplyOf(b, x)) && SameTerms(b, b') && SameSent(b, b')
           && Get(b'.outside, code) == Get(b.outside, code) + q.amount && forall x :: x != code ==> Get(b'.outside, x) == Get(b.outside, x))
  {
    hide ValidSymbol;
  }

  /** The queued one does the same and leaves the queue. */
  lemma QueuedExactly(self: Name, b: Bank)
    requires b.queue != []
    ensures var r := Inline(self, b);
      var q := b.queue[0];
      && (r.Some? <==> Tradable(b, q))
      && (r.Some? ==>
           var b' := r.value;
           && SupplyOf(b', q.symbol.code) == SupplyOf(b, q.symbol.code) - q.amount && b'.rows == b.rows
           && (forall x :: x != q.symbol.code ==> SupplyOf(b', x) == SupplyOf(b, x)) && SameTerms(b, b')
           && b'.queue == b.queue[1..] && b'.requests == b.requests && b'.outside == b.outside)
  {
    hide ValidSymbol;
  }

  /** Creating makes a token with no supply; only the contract's own account may, once per code. */
  lemma CreateExactly(self: Name, b: Bank, auth: set<Name>, issuer: Name, maximum: Quantity)
    ensures var r := Apply(self, b, Create(auth, issuer, maximum));
      var code := maximum.symbol.code;
      && (r.Some? <==> self in auth && ValidSymbol(maximum.symbol) && 0 < maximum.amount <= MAX_AMOUNT && code !in b.stat)
      && (r.Some? ==> r.value == b.(stat := b.stat[code := Stats(0, maximum.amount, maximum.symbol, issuer)]))
  {
    hide ValidSymbol;
  }

  /** Opening and closing rows change no balance: a row can be opened for an existing token and closed when it is empty. */
  lemma OpenExactly(self: Name, b: Bank, auth: set<Name>, owner: Name, symbol: Symbol, payer: Name, isAccount: bool)
    ensures var r := Apply(self, b, Open(auth, owner, symbol, payer, isAccount));
      && (r.Some? <==> payer in auth && isAccount && symbol.code in b.stat && b.stat[symbol.code].symbol == symbol)
      && (r.Some? ==>
           && (owner, symbol.code) in r.value.rows && r.value == b.(rows := r.value.rows)
           && r.value.rows.Keys == b.rows.Keys + {(owner, symbol.code)}
           && forall o, x :: Balance(r.value, o, x) == Balance(b, o, x))
  {
  }

  lemma CloseExactly(self: Name, b: Bank, auth: set<Name>, owner: Name, symbol: Symbol)
    ensures var r := Apply(self, b, Close(auth, owner, symbol));
      && (r.Some? <==> owner in auth && (owner, symbol.code) in b.rows && Balance(b, owner, symbol.code) == 0)
      && (r.Some? ==>
           && (owner, symbol.code) !in r.value.rows && r.value == b.(rows := r.value.rows)
           && r.value.rows.Keys == b.rows.Keys - {(owner, symbol.code)}
           && forall o, x :: Balance(r.value, o, x) == Balance(b, o, x))
  {
  }

  // ---------- whole transactions ----------

  function Inlines(n: nat): seq<Step> {
    if n == 0 then [] else Inlines(n - 1) + [RunInline]
  }

  lemma RunBoth(self: Name, steps: seq<Step>, more: seq<Step>, step: Step)
    ensures Run(self, steps + (more + [step])) == Next(self, Run(self, steps + more), step)
  {
    hide Next;
    assert steps + (more + [step]) == (steps + more) + [step];
    RunOne(self, steps + more, step);
  }

  /** Each inline action run takes the first retirement off the queue and its amount off the supply. */
  lemma {:induction false} InlinesRetire(self: Name, steps: seq<Step>, n: nat, code: Code)
    requires n <= |Run(self, steps).now.queue|
    ensures var b, c := Run(self, steps).now, Run(self, steps + Inlines(n));
      && c.now.queue == b.queue[n..] && c.now.rows == b.rows && c.now.requests == b.requests && c.now.outside == b.outside
      && SupplyOf(c.now, code) - Queued(b.queue[n..], code) == SupplyOf(b, code) - Queued(b.queue, code)
  {
    hide Inline, Run, SupplyOf, Tradable, SameTerms;
    if n == 0 {
      assert steps + Inlines(0) == steps;
    } else {
      var b := Run(self, steps).now;
      InlinesRetire(self, steps, n - 1, code);
      RunBoth(self, steps, Inlines(n - 1), RunInline);
      var before := Run(self, steps + Inlines(n - 1)).now;
      QueuedNeverFails(self, steps + Inlines(n - 1));
      QueuedExactly(self, before);
      assert b.queue[n - 1..][1..] == b.queue[n..];
      assert b.queue[n - 1..][0] == b.queue[n - 1];
    }
  }

  /**
    From any state of any run the queued retirements can all run and the transaction
    commit; balances and requests are then what they were, and supplies are lower by
    what was queued.
   */
  lemma TransactionCompletes(self: Name, steps: seq<Step>, code: Code)
    ensures var b := Run(self, steps).now;
      var c := Run(self, steps + (Inlines(|b.queue|) + [Commit]));
      && c.saved == c.now && c.saved.queue == [] && c.saved.rows == b.rows && c.saved.requests == b.requests && c.saved.outside == b.outside
      && SupplyOf(c.saved, code) == SupplyOf(b, code) - Queued(b.queue, code)
  {
    hide Run, SupplyOf, Inline, Inlines;
    var b := Run(self, steps).now;
    InlinesRetire(self, steps, |b.queue|, code);
    RunBoth(self, steps, Inlines(|b.queue|), Commit);
  }

  /** What is saved changes only by a commit. */
  lemma {:induction false} SavedStays(self: Name, steps: seq<Step>, more: seq<Step>)
    requires Commit !in more
    ensures Run(self, steps + more).saved == Run(self, steps).saved
  {
    hide Apply, Inline;
    if more == [] {
      assert steps + more == steps;
    } else {
      var front := more[..|more| - 1];
      assert more == front + [more[|more| - 1]];
      RunBoth(self, steps, front, more[|more| - 1]);
      SavedStays(self, steps, front);
    }
  }

  /** A failure, of an action here or elsewhere, undoes all since the last commit. */
  lemma FailureUndoesAll(self: Name, steps: seq<Step>, more: seq<Step>, last: Step)
    requires Run(self, steps).now.queue == [] && Commit !in more
    requires last.Abort? || (last.Act? && Apply(self, Run(self, steps + [Commit] + more).now, last.action).None?)
    ensures var b := Run(self, steps).now; Run(self, steps + [Commit] + more + [last]) == Chain(b, b)
  {
    hide Apply, Inline, Run;
    RunOne(self, steps, Commit);
    SavedStays(self, steps + [Commit], more);
    RunOne(self, steps + [Commit] + more, last);
  }
}
