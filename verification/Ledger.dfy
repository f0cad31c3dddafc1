/**
  One node's ledger: outputs are credited and given nonces, contract events are
  debited and paid out, and the node may stop between any two database
  transactions and start again from what it stored.

  Outputs are deposits for a process or registrations of one. A restart may replay
  them from an earlier point of the same sequence. Paying out is keyed by a trace id
  that is unique to process and nonce.
 */
module Ledger {
  import opened Sums

  type Pid = string
  type AssetId = string
  type Key = (Pid, nat)

  datatype Snapshot = Snapshot(asset: AssetId, amount: nat)

  /**
    `fits` says whether the event's extra is within its size limit, `valid` whether
    sender, fee, platform and address of a registration are in order.
   */
  datatype Output =
    | Deposit(id: string, pid: Pid, asset: AssetId, amount: nat, fits: bool)
    | Registration(pid: Pid, address: string, valid: bool)

  datatype ChainEvent = ChainEvent(process: Pid, asset: AssetId, amount: nat)

  function CreditOf(o: Output): Snapshot
    requires o.Deposit?
  {
    Snapshot(o.asset, o.amount)
  }

  function DebitOf(e: ChainEvent): Snapshot {
    Snapshot(e.asset, e.amount)
  }

  type Credit = o: Output | o.Deposit? witness Deposit("", "", "", 0, true)

  /** The processes with the nonce each gives next, their addresses, and which output got which nonce. */
  datatype Intake = Intake(identifiers: set<string>, nonces: map<Pid, nat>, addresses: set<string>, admitted: map<Key, Credit>)

  /** What survives a restart. */
  datatype Durable = Durable(
    balances: map<(Pid, AssetId), nat>,
    inc: map<Key, Snapshot>,
    dec: map<Key, Snapshot>,
    intake: Intake,
    offsets: map<Pid, nat>,
    events: map<Key, ChainEvent>,
    paid: map<Key, Snapshot>)

  /**
    Where the handling of an output stands: `WriteGroupEvent` before the snapshot, before
    the nonce, before the counter in memory; `AddProcess` before the process in memory.
   */
  datatype CreditStage = Ready | Credited | Recorded | Enrolled

  /** Where a process's receive loop stands with the event of a nonce. */
  datatype DebitStage = Checked(nonce: nat) | Debited(nonce: nat) | Paid(nonce: nat)

  /**
    `memory` and `known` are the processes in memory. `done` is history: how many
    outputs were ever dealt with. `short` is the panic of a debit the balance does not
    cover, `panicked` that of an event whose identifier or nonce is out of step.
   */
  datatype Node = Node(
    d: Durable,
    memory: map<Pid, nat>,
    known: set<string>,
    position: nat,
    done: nat,
    credit: CreditStage,
    processed: set<Key>,
    debit: map<Pid, DebitStage>,
    short: bool,
    panicked: bool)

  // ---------- transactions ----------

  /** `CheckAccountSnapshot` for a debit */
  predicate Enough(d: Durable, k: Key, s: Snapshot) {
    k in d.dec || Get(d.balances, (k.0, s.asset)) >= s.amount
  }

  /** `WriteAccountSnapshot` for a credit: once per key */
  function Increase(d: Durable, k: Key, s: Snapshot): Durable {
    if k in d.inc then d else
      var b := (k.0, s.asset);
      d.(balances := d.balances[b := Get(d.balances, b) + s.amount], inc := d.inc[k := s])
  }

  /** `WriteAccountSnapshot` for a debit: once per key; it panics when the balance is short */
  function Decrease(d: Durable, k: Key, s: Snapshot): Durable
    requires Enough(d, k, s)
  {
    if k in d.dec then d else
      var b := (k.0, s.asset);
      d.(balances := d.balances[b := Get(d.balances, b) - s.amount], dec := d.dec[k := s])
  }

  /** A deposit that is not dropped */
  predicate Acceptable(o: Output, nonces: map<Pid, nat>) {
    o.Deposit? && o.pid in nonces && o.fits
  }

  /** A registration that is not refused */
  predicate Enrolls(o: Output, nonces: map<Pid, nat>, addresses: set<string>) {
    o.Registration? && o.valid && o.pid !in nonces && o.address !in addresses
  }

  /** `WritePendingGroupEventAndNonce`, as far as the ledger is concerned */
  function Record(a: Intake, o: Credit, nonce: nat): Intake {
    a.(identifiers := a.identifiers + {o.id}, nonces := a.nonces[o.pid := nonce + 1], admitted := a.admitted[(o.pid, nonce) := o])
  }

  /** `WriteProcess`: an existing process stays */
  function Enroll(a: Intake, pid: Pid, address: string): Intake {
    if pid in a.nonces then a else a.(nonces := a.nonces[pid := 0], addresses := a.addresses + {address})
  }

  // ---------- steps ----------

  datatype Step =
    | Handle
    | ChainLog(pid: Pid, nonce: nat, e: ChainEvent)
    | Check(pid: Pid, nonce: nat)
    | Debit(pid: Pid)
    | Pay(pid: Pid, succeeds: bool)
    | Advance(pid: Pid)
    | Restart(position: nat)

  /** The next transaction or assignment in handling the output at the current position. */
  function HandleStep(outputs: seq<Output>, n: Node): Node {
    if n.position >= |outputs| then n else
    var o := outputs[n.position];
    var a := n.d.intake;
    var beyond := if n.done <= n.position then n.position + 1 else n.done;
    match n.credit
    case Ready =>
      if Acceptable(o, n.memory) && o.id !in a.identifiers then
        n.(d := Increase(n.d, (o.pid, n.memory[o.pid]), CreditOf(o)), credit := Credited)
      else if Enrolls(o, n.memory, n.known) then
        n.(d := n.d.(intake := Enroll(a, o.pid, o.address)), done := beyond, credit := Enrolled)
      else n.(position := n.position + 1, done := beyond)
    case Credited =>
      if !o.Deposit? || o.pid !in n.memory || o.id in a.identifiers || o.pid !in a.nonces || a.nonces[o.pid] != n.memory[o.pid]
      then n.(panicked := true)
      else n.(d := n.d.(intake := Record(a, o, n.memory[o.pid])), done := beyond, credit := Recorded)
    case Recorded =>
      if o.pid !in n.memory then n
      else n.(memory := n.memory[o.pid := n.memory[o.pid] + 1], position := n.position + 1, credit := Ready)
    case Enrolled =>
      if !o.Registration? then n
      else n.(memory := n.memory[o.pid := 0], known := n.known + {o.address}, position := n.position + 1, credit := Ready)
  }

  function CheckStep(n: Node, pid: Pid, nonce: nat): Node {
    var k := (pid, nonce);
    if pid in n.debit || k !in n.d.events || k in n.processed || nonce < Get(n.d.offsets, pid) then n else
    var e := n.d.events[k];
    if e.process != pid || e.amount <= 0 || !Enough(n.d, k, DebitOf(e)) then n
    else n.(processed := n.processed + {k}, debit := n.debit[pid := Checked(nonce)])
  }

  function DebitStep(n: Node, pid: Pid): Node {
    if pid !in n.debit || !n.debit[pid].Checked? then n else
    var k := (pid, n.debit[pid].nonce);
    if k !in n.d.events then n else
    var s := DebitOf(n.d.events[k]);
    if !Enough(n.d, k, s) then n.(short := true)
    else n.(d := Decrease(n.d, k, s), debit := n.debit[pid := Debited(k.1)])
  }

  function PayStep(n: Node, pid: Pid, succeeds: bool): Node {
    if pid !in n.debit || !n.debit[pid].Debited? then n else
    var k := (pid, n.debit[pid].nonce);
    if !succeeds || k !in n.d.events then n.(debit := n.debit - {pid})
    else n.(d := n.d.(paid := n.d.paid[k := DebitOf(n.d.events[k])]), debit := n.debit[pid := Paid(k.1)])
  }

  function AdvanceStep(n: Node, pid: Pid): Node {
    if pid !in n.debit || !n.debit[pid].Paid? then n
    else n.(d := n.d.(offsets := n.d.offsets[pid := n.debit[pid].nonce]), debit := n.debit - {pid})
  }

  function RestartStep(n: Node, position: nat): Node {
    n.(memory := n.d.intake.nonces, known := n.d.intake.addresses, position := if position <= n.position then position else n.position,
       credit := Ready, processed := {}, debit := map[])
  }

  function Next(outputs: seq<Output>, n: Node, step: Step): Node {
    match step
    case Handle => HandleStep(outputs, n)
    case ChainLog(pid, nonce, e) =>
      if (pid, nonce) in n.d.events then n else n.(d := n.d.(events := n.d.events[(pid, nonce) := e]))
    case Check(pid, nonce) => CheckStep(n, pid, nonce)
    case Debit(pid) => DebitStep(n, pid)
    case Pay(pid, succeeds) => PayStep(n, pid, succeeds)
    case Advance(pid) => AdvanceStep(n, pid)
    case Restart(position) => RestartStep(n, position)
  }

  const NO_INTAKE := Intake({}, map[], {}, map[])

  const FRESH_NODE := Node(Durable(map[], map[], map[], NO_INTAKE, map[], map[], map[]), map[], {}, 0, 0, Ready, {}, map[], false, false)

  function After(outputs: seq<Output>, n: Node, steps: seq<Step>): Node {
    if steps == [] then n
    else Next(outputs, After(outputs, n, steps[..|steps| - 1]), steps[|steps| - 1])
  }

  function Run(outputs: seq<Output>, steps: seq<Step>): Node {
    After(outputs, FRESH_NODE, steps)
  }

  // ---------- the ledger of a node that never stops ----------

  /** A new acceptable deposit gets the next nonce of its process; a new process starts at nonce zero. */
  function Take(a: Intake, o: Output): Intake {
    if Acceptable(o, a.nonces) && o.id !in a.identifiers then Record(a, o, a.nonces[o.pid])
    else if Enrolls(o, a.nonces, a.addresses) then Enroll(a, o.pid, o.address)
    else a
  }

  function Assign(outs: seq<Output>): Intake {
    if outs == [] then NO_INTAKE else Take(Assign(outs[..|outs| - 1]), outs[|outs| - 1])
  }

  /** The output at `j` is a deposit for a process registered before it. */
  predicate Accepted(outs: seq<Output>, j: nat)
    requires j < |outs|
  {
    Acceptable(outs[j], Assign(outs[..j]).nonces)
  }

  /** What the first accepted output of each identifier brings to an account. */
  ghost function Earned(outs: seq<Output>, pid: Pid, asset: AssetId): nat {
    if outs == [] then 0 else
    var last := |outs| - 1;
    var o := outs[last];
    Earned(outs[..last], pid, asset) +
      if Accepted(outs, last) && o.pid == pid && o.asset == asset && (forall j :: 0 <= j < last && Accepted(outs, j) ==> outs[j].id != o.id)
      then o.amount else 0
  }

  function Credits(admitted: map<Key, Credit>): map<Key, Snapshot> {
    map k | k in admitted :: CreditOf(admitted[k])
  }

  // ---------- sums over snapshots ----------

  function Of(m: map<Key, Snapshot>, pid: Pid, asset: AssetId): map<Key, nat> {
    map k | k in m && k.0 == pid && m[k].asset == asset :: m[k].amount
  }

  ghost function Sum(m: map<Key, Snapshot>, pid: Pid, asset: AssetId): nat {
    Total(Of(m, pid, asset))
  }

  lemma SumInsert(m: map<Key, Snapshot>, k: Key, s: Snapshot, pid: Pid, asset: AssetId)
    requires k !in m
    ensures Sum(m[k := s], pid, asset) == Sum(m, pid, asset) + if k.0 == pid && s.asset == asset then s.amount else 0
  {
    var part := Of(m, pid, asset);
    if k.0 == pid && s.asset == asset {
      assert Of(m[k := s], pid, asset) == part[k := s.amount];
      TotalSet(part, k, s.amount);
    } else {
      assert Of(m[k := s], pid, asset) == part;
    }
  }

  lemma SumPart(m: map<Key, Snapshot>, whole: map<Key, Snapshot>, pid: Pid, asset: AssetId)
    requires forall k :: k in m ==> k in whole && whole[k] == m[k]
    ensures Sum(m, pid, asset) <= Sum(whole, pid, asset)
  {
    TotalMonotone(Of(m, pid, asset), Of(whole, pid, asset));
  }

  // ---------- the invariant ----------

  /** Each balance is what was credited minus what was debited. */
  ghost predicate Balanced(balances: map<(Pid, AssetId), nat>, inc: map<Key, Snapshot>, dec: map<Key, Snapshot>) {
    forall pid, asset :: Get(balances, (pid, asset)) + Sum(dec, pid, asset) == Sum(inc, pid, asset)
  }

  /** An event the receive loop does not skip */
  predicate Payable(k: Key, e: ChainEvent) {
    e.process == k.0 && e.amount > 0
  }

  /** Debits are of stored events, payouts are of debits. */
  ghost predicate PaidIsDebited(dec: map<Key, Snapshot>, events: map<Key, ChainEvent>, paid: map<Key, Snapshot>) {
    && (forall k :: k in dec ==> k in events && dec[k] == DebitOf(events[k]) && Payable(k, events[k]))
    && (forall k :: k in paid ==> k in dec && paid[k] == dec[k])
  }

  ghost predicate DebitsOk(balances: map<(Pid, AssetId), nat>, dec: map<Key, Snapshot>, events: map<Key, ChainEvent>, debit: map<Pid, DebitStage>) {
    forall pid :: pid in debit ==>
      var k := (pid, debit[pid].nonce);
      && k in events && Payable(k, events[k])
      && (debit[pid].Checked? ==> k in dec || Get(balances, (pid, events[k].asset)) >= events[k].amount)
      && (!debit[pid].Checked? ==> k in dec)
  }

  /** The snapshots are those of the nonces, but for one that waits for its nonce. */
  ghost predicate CreditsOk(outputs: seq<Output>, done: nat, inc: map<Key, Snapshot>, a: Intake) {
    || inc == Credits(a.admitted)
    || (&& done < |outputs| && Acceptable(outputs[done], a.nonces) && outputs[done].id !in a.identifiers
        && var o := outputs[done]; inc == Credits(a.admitted)[(o.pid, a.nonces[o.pid]) := CreditOf(o)])
  }

  ghost predicate MemoryOk(outputs: seq<Output>, n: Node) {
    var a := n.d.intake;
    && n.position <= n.done <= |outputs|
    && (n.credit.Ready? ==> n.memory == a.nonces && n.known == a.addresses)
    && (!n.credit.Ready? ==> n.position < |outputs|)
    && (n.credit.Credited? ==>
         var o := outputs[n.position];
         n.done == n.position && n.memory == a.nonces && n.known == a.addresses
         && Acceptable(o, a.nonces) && o.id !in a.identifiers
         && n.d.inc == Credits(a.admitted)[(o.pid, a.nonces[o.pid]) := CreditOf(o)])
    && (n.credit.Recorded? ==>
         var pid := outputs[n.position].pid;
         n.position < n.done && pid in n.memory && n.known == a.addresses && a.nonces == n.memory[pid := n.memory[pid] + 1])
    && (n.credit.Enrolled? ==>
         var o := outputs[n.position];
         n.position < n.done && o.Registration? && a.nonces == n.memory[o.pid := 0] && a.addresses == n.known + {o.address})
  }

  /** From `position` on, no deposit dealt with before was dropped for want of a process that exists by now. */
  ghost predicate Replayable(outputs: seq<Output>, a: Intake, position: nat, done: nat) {
    forall j :: position <= j < done && j < |outputs| && Acceptable(outputs[j], a.nonces) ==> outputs[j].id in a.identifiers
  }

  /** What the accounts keep, whatever is replayed. */
  ghost predicate Books(n: Node) {
    && !n.short
    && Balanced(n.d.balances, n.d.inc, n.d.dec) && PaidIsDebited(n.d.dec, n.d.events, n.d.paid)
    && DebitsOk(n.d.balances, n.d.dec, n.d.events, n.debit)
  }

  /** The intake is that of a node that never stopped, after the outputs dealt with. */
  ghost predicate InStep(outputs: seq<Output>, n: Node) {
    && !n.panicked
    && MemoryOk(outputs, n) && Replayable(outputs, n.d.intake, n.position, n.done)
    && n.d.intake == Assign(outputs[..n.done]) && CreditsOk(outputs, n.done, n.d.inc, n.d.intake)
  }
}
