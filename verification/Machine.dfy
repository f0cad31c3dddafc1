/**
  The machine's methods over the database and the counters it keeps in memory, each
  tied to the steps of the ledger it takes when nothing stops it.
 */
module Machine {
  import opened Sums
  import opened Ledger
  import opened LedgerSafety

  class Machine {
    const feeAsset: AssetId
    const feeAmount: nat
    const engines: set<string>
    var d: Durable
    var memory: map<Pid, nat>
    var known: set<string>
    var processed: set<Key>
    ghost var position: nat
    ghost var done: nat

    ghost function State(): Node
      reads this
    {
      Node(d, memory, known, position, done, Ready, processed, map[], false, false)
    }

    constructor (feeAsset: AssetId, feeAmount: nat, engines: set<string>)
      ensures State() == FRESH_NODE
    {
      this.feeAsset, this.feeAmount, this.engines := feeAsset, feeAmount, engines;
      d := Durable(map[], map[], map[], NO_INTAKE, map[], map[], map[]);
      memory, known, processed := map[], {}, {};
      position, done := 0, 0;
    }

    method CheckAccountSnapshot(k: Key, s: Snapshot) returns (enough: bool)
      ensures enough <==> k in d.dec || Get(d.balances, (k.0, s.asset)) >= s.amount
    {
      if k in d.dec {
        return true;
      }
      var balance := Get(d.balances, (k.0, s.asset));
      return balance >= s.amount;
    }

    /** Not ok, with nothing written, is a panic: a debit the balance cannot cover. */
    method WriteAccountSnapshot(k: Key, s: Snapshot, credit: bool) returns (ok: bool)
      modifies this`d
      ensures ok == (credit || Enough(old(d), k, s))
      ensures !ok ==> d == old(d)
      ensures ok ==> d == if credit then Increase(old(d), k, s) else Decrease(old(d), k, s)
    {
      if (credit && k in d.inc) || (!credit && k in d.dec) {
        return true;
      }
      var b := (k.0, s.asset);
      var balance := Get(d.balances, b);
      if !credit && balance < s.amount {
        return false;
      }
      if credit {
        d := d.(balances := d.balances[b := balance + s.amount], inc := d.inc[k := s]);
      } else {
        d := d.(balances := d.balances[b := balance - s.amount], dec := d.dec[k := s]);
      }
      return true;
    }

    /** Not ok is a panic: an identifier already recorded, or a nonce out of step. */
    method WritePendingGroupEventAndNonce(o: Credit, nonce: nat) returns (ok: bool)
      modifies this`d
      ensures ok == (o.id !in old(d).intake.identifiers && o.pid in old(d).intake.nonces && old(d).intake.nonces[o.pid] == nonce)
      ensures d == if ok then old(d).(intake := Record(old(d).intake, o, nonce)) else old(d)
    {
      var a := d.intake;
      if o.id in a.identifiers || o.pid !in a.nonces || a.nonces[o.pid] != nonce {
        return false;
      }
      a := a.(identifiers := a.identifiers + {o.id});
      a := a.(nonces := a.nonces[o.pid := a.nonces[o.pid] + 1]);
      a := a.(admitted := a.admitted[(o.pid, nonce) := o]);
      d := d.(intake := a);
      return true;
    }

    /** `WriteProcess` */
    method WriteProcess(pid: Pid, address: string)
      modifies this`d
      ensures d == old(d).(intake := Enroll(old(d).intake, pid, address))
    {
      var a := d.intake;
      if pid !in a.nonces {
        d := d.(intake := a.(nonces := a.nonces[pid := 0], addresses := a.addresses + {address}));
      }
    }

    /** The machine's own conditions on a registration; the rest is up to the platform's engine. */
    predicate InOrder(pid: Pid, platform: string, sender: Pid, asset: AssetId, amount: nat, verified: bool) {
      pid == sender && asset == feeAsset && amount >= feeAmount && platform in engines && verified
    }

    /** A registration: refused in one step, taken in two, after which the process exists in memory and store. */
    method AddProcess(pid: Pid, platform: string, address: string, sender: Pid, asset: AssetId, amount: nat, verified: bool,
                      ghost outputs: seq<Output>) returns (added: bool, ghost trace: seq<Step>)
      requires InStep(outputs, State()) && position < |outputs|
      requires outputs[position] == Registration(pid, address, InOrder(pid, platform, sender, asset, amount, verified))
      modifies this
      ensures State() == After(outputs, old(State()), trace) && InStep(outputs, State())
      ensures added == (InOrder(pid, platform, sender, asset, amount, verified) && pid !in old(memory) && address !in old(known))
      ensures added ==> memory == old(memory)[pid := 0] == d.intake.nonces && known == old(known) + {address}
      ensures position == old(position) + 1
    {
      hide InStep, HandleStep, Next, After;
      ghost var start := State();
      HandleThrice(outputs, start);
      if pid != sender || asset != feeAsset || amount < feeAmount || platform !in engines
        || sender in memory || address in known || !verified
      {
        trace := Handles(1);
        PassesOver(outputs, start);
        position, done := position + 1, if done <= position then position + 1 else done;
        return false, trace;
      }
      WriteProcess(sender, address);
      memory := memory[sender := 0];
      known := known + {address};
      trace := Handles(2);
      EnrolledWhole(outputs, start);
      position, done := position + 1, position + 1;
      return true, trace;
    }

    /** A deposit: dropped in one step, credited in three. */
    method WriteGroupEvent(o: Credit, ghost outputs: seq<Output>) returns (ghost trace: seq<Step>)
      requires InStep(outputs, State()) && position < |outputs| && outputs[position] == o
      modifies this
      ensures State() == After(outputs, old(State()), trace) && InStep(outputs, State())
      ensures position == old(position) + 1
      ensures o.pid in old(memory) && o.fits ==> o.id in d.intake.identifiers
      ensures old(State()).d.dec == d.dec && old(State()).d.paid == d.paid
    {
      hide InStep, HandleStep, Next, After;
      ghost var start := State();
      HandleThrice(outputs, start);
      ReadyMemory(outputs, start);
      if o.pid !in memory || !o.fits || o.id in d.intake.identifiers {
        trace := Handles(1);
        PassesOver(outputs, start);
        position, done := position + 1, if done <= position then position + 1 else done;
        return;
      }
      var nonce := memory[o.pid];
      var ok := WriteAccountSnapshot((o.pid, nonce), CreditOf(o), true);
      IncreaseKeepsIntake(start.d, (o.pid, nonce), CreditOf(o));
      ok := WritePendingGroupEventAndNonce(o, nonce);
      assert ok;
      memory := memory[o.pid := nonce + 1];
      trace := Handles(3);
      CreditedWhole(outputs, start);
      position, done := position + 1, position + 1;
    }

    /** What the receive loop does with a listed event that it can afford. */
    method SettleEvent(pid: Pid, nonce: nat, delivers: bool, ghost outputs: seq<Output>) returns (ghost trace: seq<Step>)
      requires Books(State()) && Affordable(State(), pid, nonce)
      modifies this`d, this`processed
      ensures State() == After(outputs, old(State()), trace) && Books(State())
      ensures State() == Settled(old(State()), pid, nonce, delivers)
    {
      hide Books, Next, After;
      var k := (pid, nonce);
      var s := DebitOf(d.events[k]);
      trace := SettleSteps(pid, nonce, delivers);
      SettledWhole(outputs, State(), pid, nonce, delivers);
      processed := processed + {k};
      var ok := WriteAccountSnapshot(k, s, false);
      assert ok;
      if delivers {
        d := d.(paid := d.paid[k := s]);
        d := d.(offsets := d.offsets[pid := nonce]);
      }
    }

    /**
      One round of the receive loop over the events listed from the stored offset on;
      `delivers` says for which of them building the transaction succeeds. Every
      event it reaches is paid for good or skipped, and it stops only where the balance is short.
     */
    method ReceiveEvents(pid: Pid, listed: seq<nat>, delivers: seq<bool>, ghost outputs: seq<Output>)
        returns (reached: nat, ghost trace: seq<Step>)
      requires Books(State()) && |delivers| == |listed|
      requires forall i :: 0 <= i < |listed| ==> (pid, listed[i]) in d.events && Get(d.offsets, pid) <= listed[i]
      requires forall i, j :: 0 <= i < j < |listed| ==> listed[i] < listed[j]
      modifies this`d, this`processed
      ensures State() == After(outputs, old(State()), trace) && Books(State())
      ensures reached <= |listed| && Rounded(old(State()), State(), pid, listed, delivers, reached)
      ensures reached < |listed| ==>
        && Wanted(old(State()), pid, listed[reached])
        && Get(d.balances, (pid, d.events[(pid, listed[reached])].asset)) < d.events[(pid, listed[reached])].amount
    {
      hide Books, Next, After, Rounded, Settled;
      reached, trace := 0, [];
      AfterNothing(outputs, State());
      RoundedStart(State(), pid, listed, delivers);
      while reached < |listed|
        invariant reached <= |listed| && d.events == old(d).events
        invariant State() == After(outputs, old(State()), trace) && Books(State())
        invariant forall i :: reached <= i < |listed| ==> Get(d.offsets, pid) <= listed[i] && ((pid, listed[i]) in processed <==> (pid, listed[i]) in old(processed))
        invariant Rounded(old(State()), State(), pid, listed, delivers, reached)
      {
        var k := (pid, listed[reached]);
        var e := d.events[k];
        ghost var n := State();
        if e.process == pid && k !in processed && e.amount > 0 {
          var enough := CheckAccountSnapshot(k, DebitOf(e));
          if !enough {
            return;
          }
          ghost var more := SettleEvent(pid, listed[reached], delivers[reached], outputs);
          AfterSplit(outputs, old(State()), trace, more);
          trace := trace + more;
          RoundedSettled(old(State()), n, pid, listed, delivers, reached);
          SettledRest(n, pid, listed[reached], delivers[reached]);
        } else {
          RoundedSkipped(old(State()), n, pid, listed, delivers, reached);
        }
        reached := reached + 1;
      }
    }
  }

  /**
    What a round has done when it has reached some of the listed events: those it wants
    and can deliver are paid as stored, nothing else is debited or paid, and the offset
    is that of the last one delivered.
   */
  ghost predicate Rounded(n0: Node, n: Node, pid: Pid, listed: seq<nat>, delivers: seq<bool>, reached: nat)
    requires reached <= |listed| == |delivers|
  {
    && n.d.events == n0.d.events
    && DebitsOf(n0, n.d.dec.Keys, pid, listed, reached)
    && PaymentsOf(n0, n.d.paid, pid, listed, delivers, reached)
    && OffsetOf(n0, n.d.offsets, pid, listed, delivers, reached)
  }

  ghost predicate DebitsOf(n0: Node, dec: set<Key>, pid: Pid, listed: seq<nat>, reached: nat)
    requires reached <= |listed|
  {
    && (forall i :: 0 <= i < reached && Wanted(n0, pid, listed[i]) ==> (pid, listed[i]) in dec)
    && (forall k :: k in dec && k !in n0.d.dec ==> k.0 == pid && ListedTo(listed, reached, k.1) && Wanted(n0, pid, k.1))
  }

  ghost predicate PaymentsOf(n0: Node, paid: map<Key, Snapshot>, pid: Pid, listed: seq<nat>, delivers: seq<bool>, reached: nat)
    requires reached <= |listed| == |delivers|
  {
    && (forall i :: 0 <= i < reached && Wanted(n0, pid, listed[i]) && delivers[i] ==> Delivered(n0, paid, (pid, listed[i])))
    && (forall k :: k in paid && !(k in n0.d.paid && n0.d.paid[k] == paid[k]) ==>
         k.0 == pid && Wanted(n0, pid, k.1) && DeliveredTo(listed, delivers, reached, k.1))
  }

  ghost predicate OffsetOf(n0: Node, offsets: map<Pid, nat>, pid: Pid, listed: seq<nat>, delivers: seq<bool>, reached: nat)
    requires reached <= |listed| == |delivers|
  {
    && (forall i :: 0 <= i < reached && Wanted(n0, pid, listed[i]) && delivers[i] ==> listed[i] <= Get(offsets, pid))
    && (Get(offsets, pid) == Get(n0.d.offsets, pid) || DeliveredTo(listed, delivers, reached, Get(offsets, pid)))
    && (forall p :: p != pid ==> Get(offsets, p) == Get(n0.d.offsets, p))
  }

  ghost predicate Delivered(n: Node, paid: map<Key, Snapshot>, k: Key) {
    k in n.d.events && k in paid && paid[k] == DebitOf(n.d.events[k])
  }

  ghost predicate ListedTo(listed: seq<nat>, reached: nat, nonce: nat)
    requires reached <= |listed|
  {
    exists i :: 0 <= i < reached && listed[i] == nonce
  }

  ghost predicate DeliveredTo(listed: seq<nat>, delivers: seq<bool>, reached: nat, nonce: nat)
    requires reached <= |listed| == |delivers|
  {
    exists i :: 0 <= i < reached && listed[i] == nonce && delivers[i]
  }

  lemma RoundedStart(n: Node, pid: Pid, listed: seq<nat>, delivers: seq<bool>)
    requires |listed| == |delivers|
    ensures Rounded(n, n, pid, listed, delivers, 0)
  {
  }

  lemma MoreListed(listed: seq<nat>, delivers: seq<bool>, reached: nat, nonce: nat)
    requires reached < |listed| == |delivers|
    ensures ListedTo(listed, reached, nonce) || listed[reached] == nonce ==> ListedTo(listed, reached + 1, nonce)
    ensures DeliveredTo(listed, delivers, reached, nonce) || (listed[reached] == nonce && delivers[reached]) ==> DeliveredTo(listed, delivers, reached + 1, nonce)
  {
  }

  lemma RoundedSkipped(n0: Node, n: Node, pid: Pid, listed: seq<nat>, delivers: seq<bool>, reached: nat)
    requires reached < |listed| == |delivers| && Rounded(n0, n, pid, listed, delivers, reached) && !Wanted(n0, pid, listed[reached])
    ensures Rounded(n0, n, pid, listed, delivers, reached + 1)
  {
    hide Wanted, ListedTo, DeliveredTo, Delivered;
    MoreListed(listed, delivers, reached, Get(n.d.offsets, pid));
    forall k | k in n.d.dec || k in n.d.paid
      ensures ListedTo(listed, reached, k.1) ==> ListedTo(listed, reached + 1, k.1)
      ensures DeliveredTo(listed, delivers, reached, k.1) ==> DeliveredTo(listed, delivers, reached + 1, k.1)
    {
      MoreListed(listed, delivers, reached, k.1);
    }
  }

  /** What settling an event changes */
  lemma SettledRest(n: Node, pid: Pid, nonce: nat, delivers: bool)
    requires Affordable(n, pid, nonce)
    ensures var n', k := Settled(n, pid, nonce, delivers), (pid, nonce);
      && k in n.d.events && n'.d.events == n.d.events && n'.processed == n.processed + {k}
      && n'.d.dec.Keys == n.d.dec.Keys + {k}
      && n'.d.paid == (if delivers then n.d.paid[k := DebitOf(n.d.events[k])] else n.d.paid)
      && n'.d.offsets == (if delivers then n.d.offsets[pid := nonce] else n.d.offsets)
  {
  }

  lemma MoreDebits(n0: Node, dec: set<Key>, pid: Pid, listed: seq<nat>, delivers: seq<bool>, reached: nat)
    requires reached < |listed| == |delivers| && DebitsOf(n0, dec, pid, listed, reached) && Wanted(n0, pid, listed[reached])
    ensures DebitsOf(n0, dec + {(pid, listed[reached])}, pid, listed, reached + 1)
  {
    hide Wanted, ListedTo;
    forall k | k in dec + {(pid, listed[reached])}
      ensures ListedTo(listed, reached, k.1) || k.1 == listed[reached] ==> ListedTo(listed, reached + 1, k.1)
    {
      MoreListed(listed, delivers, reached, k.1);
    }
  }

  lemma MorePayments(n0: Node, paid: map<Key, Snapshot>, pid: Pid, listed: seq<nat>, delivers: seq<bool>, reached: nat)
    requires reached < |listed| == |delivers| && PaymentsOf(n0, paid, pid, listed, delivers, reached) && Wanted(n0, pid, listed[reached])
    ensures var k := (pid, listed[reached]);
      k in n0.d.events && PaymentsOf(n0, if delivers[reached] then paid[k := DebitOf(n0.d.events[k])] else paid, pid, listed, delivers, reached + 1)
  {
    var key := (pid, listed[reached]);
    assert key in n0.d.events;
    hide Wanted, DeliveredTo;
    forall k | k in paid || k == key
      ensures DeliveredTo(listed, delivers, reached, k.1) || (k == key && delivers[reached]) ==> DeliveredTo(listed, delivers, reached + 1, k.1)
    {
      MoreListed(listed, delivers, reached, k.1);
    }
  }

  lemma MoreOffset(n0: Node, offsets: map<Pid, nat>, pid: Pid, listed: seq<nat>, delivers: seq<bool>, reached: nat)
    requires reached < |listed| == |delivers| && OffsetOf(n0, offsets, pid, listed, delivers, reached)
    requires Get(offsets, pid) <= listed[reached] && forall i :: 0 <= i < reached ==> listed[i] <= listed[reached]
    ensures delivers[reached] ==> OffsetOf(n0, offsets[pid := listed[reached]], pid, listed, delivers, reached + 1)
    ensures !delivers[reached] ==> OffsetOf(n0, offsets, pid, listed, delivers, reached + 1)
  {
    hide Wanted, DeliveredTo;
    MoreListed(listed, delivers, reached, listed[reached]);
    MoreListed(listed, delivers, reached, Get(offsets, pid));
  }

  lemma RoundedSettled(n0: Node, n: Node, pid: Pid, listed: seq<nat>, delivers: seq<bool>, reached: nat)
    requires reached < |listed| == |delivers| && Rounded(n0, n, pid, listed, delivers, reached)
    requires Wanted(n0, pid, listed[reached]) && Affordable(n, pid, listed[reached])
    requires forall i :: 0 <= i < reached ==> listed[i] <= listed[reached]
    ensures Rounded(n0, Settled(n, pid, listed[reached], delivers[reached]), pid, listed, delivers, reached + 1)
  {
    OffsetBehind(n, pid, listed[reached]);
    hide Wanted, Affordable, Settled, DebitsOf, PaymentsOf, OffsetOf;
    SettledRest(n, pid, listed[reached], delivers[reached]);
    MoreDebits(n0, n.d.dec.Keys, pid, listed, delivers, reached);
    MorePayments(n0, n.d.paid, pid, listed, delivers, reached);
    MoreOffset(n0, n.d.offsets, pid, listed, delivers, reached);
  }

  lemma OffsetBehind(n: Node, pid: Pid, nonce: nat)
    requires Affordable(n, pid, nonce)
    ensures Get(n.d.offsets, pid) <= nonce
  {
  }

  // ---------- what the steps amount to ----------

  /** An event of the process that the loop has not handled yet. */
  ghost predicate Wanted(n: Node, pid: Pid, nonce: nat) {
    var k := (pid, nonce);
    k in n.d.events && k !in n.processed && n.d.events[k].process == pid && n.d.events[k].amount > 0
  }

  ghost predicate Affordable(n: Node, pid: Pid, nonce: nat) {
    && Wanted(n, pid, nonce) && pid !in n.debit && Get(n.d.offsets, pid) <= nonce
    && Enough(n.d, (pid, nonce), DebitOf(n.d.events[(pid, nonce)]))
  }

  ghost function SettleSteps(pid: Pid, nonce: nat, delivers: bool): seq<Step> {
    [Check(pid, nonce), Debit(pid), Pay(pid, delivers)] + [Advance(pid)]
  }

  /** The event is debited, and if delivered also paid and the offset moved. */
  ghost function Settled(n: Node, pid: Pid, nonce: nat, delivers: bool): Node
    requires Affordable(n, pid, nonce)
  {
    var k := (pid, nonce);
    var s := DebitOf(n.d.events[k]);
    var d := Decrease(n.d, k, s);
    n.(processed := n.processed + {k},
       d := if delivers then d.(paid := d.paid[k := s], offsets := d.offsets[pid := nonce]) else d)
  }

  lemma SettledWhole(outputs: seq<Output>, n: Node, pid: Pid, nonce: nat, delivers: bool)
    requires Books(n) && Affordable(n, pid, nonce)
    ensures After(outputs, n, SettleSteps(pid, nonce, delivers)) == Settled(n, pid, nonce, delivers)
    ensures Books(Settled(n, pid, nonce, delivers))
  {
    hide Books, Enough, HandleStep, Decrease;
    AfterBooks(outputs, n, SettleSteps(pid, nonce, delivers));
    AfterSplit(outputs, n, [Check(pid, nonce), Debit(pid), Pay(pid, delivers)], [Advance(pid)]);
    ThreeSteps(outputs, n, Check(pid, nonce), Debit(pid), Pay(pid, delivers));
    var k := (pid, nonce);
    var checked := CheckStep(n, pid, nonce);
    DecreaseKeeps(n.d, k, DebitOf(n.d.events[k]));
    assert checked.d == n.d && checked.debit[pid] == Checked(nonce);
    var debited := DebitStep(checked, pid);
    var paid := PayStep(debited, pid, delivers);
    OneStep(outputs, paid, Advance(pid));
    assert AdvanceStep(paid, pid).debit == n.debit;
  }

  lemma DecreaseKeeps(d: Durable, k: Key, s: Snapshot)
    requires Enough(d, k, s)
    ensures Decrease(d, k, s).events == d.events
  {
  }

  lemma AfterNothing(outputs: seq<Output>, n: Node)
    ensures After(outputs, n, []) == n
  {
  }

  lemma OneStep(outputs: seq<Output>, n: Node, step: Step)
    ensures After(outputs, n, [step]) == Next(outputs, n, step)
  {
    hide Next;
    assert After(outputs, n, [step][..0]) == n;
  }

  lemma ReadyMemory(outputs: seq<Output>, n: Node)
    requires InStep(outputs, n) && n.credit.Ready?
    ensures n.memory == n.d.intake.nonces && n.known == n.d.intake.addresses && n.position <= n.done
  {
    hide Assign, CreditsOk, Replayable;
  }

  lemma PassesOver(outputs: seq<Output>, n: Node)
    requires InStep(outputs, n) && n.credit.Ready? && n.position < |outputs|
    requires var o := outputs[n.position];
      !(Acceptable(o, n.memory) && o.id !in n.d.intake.identifiers) && !Enrolls(o, n.memory, n.known)
    ensures var n' := n.(position := n.position + 1, done := if n.done <= n.position then n.position + 1 else n.done);
      HandleStep(outputs, n) == n' && InStep(outputs, n')
  {
    hide InStep;
    HandleInStep(outputs, n);
  }

  lemma EnrolledWhole(outputs: seq<Output>, n: Node)
    requires InStep(outputs, n) && n.credit.Ready? && n.position < |outputs|
    requires Enrolls(outputs[n.position], n.memory, n.known)
    ensures var o := outputs[n.position];
      var n' := n.(d := n.d.(intake := Enroll(n.d.intake, o.pid, o.address)), memory := n.memory[o.pid := 0],
                   known := n.known + {o.address}, position := n.position + 1, done := n.position + 1);
      HandleStep(outputs, HandleStep(outputs, n)) == n' && InStep(outputs, n') && n.memory == n.d.intake.nonces
  {
    hide InStep;
    ReadyMemory(outputs, n);
    NotDoneYet(outputs, n);
    EnrollTwice(outputs, n);
    HandleInStep(outputs, n);
    HandleInStep(outputs, HandleStep(outputs, n));
  }

  lemma NotDoneYet(outputs: seq<Output>, n: Node)
    requires InStep(outputs, n) && n.credit.Ready? && n.position < |outputs|
    requires Enrolls(outputs[n.position], n.memory, n.known)
    ensures n.position == n.done
  {
    hide Assign, CreditsOk, Replayable;
    if n.position < n.done {
      RegistrationsDone(outputs[..n.done], n.position);
    }
  }

  lemma CreditedWhole(outputs: seq<Output>, n: Node)
    requires InStep(outputs, n) && n.credit.Ready? && n.position < |outputs|
    requires var o := outputs[n.position]; Acceptable(o, n.memory) && o.id !in n.d.intake.identifiers
    ensures var o := outputs[n.position];
      var nonce := n.memory[o.pid];
      var d := Increase(n.d, (o.pid, nonce), CreditOf(o));
      var n' := n.(d := d.(intake := Record(n.d.intake, o, nonce)), memory := n.memory[o.pid := nonce + 1],
                   position := n.position + 1, done := n.position + 1);
      HandleStep(outputs, HandleStep(outputs, HandleStep(outputs, n))) == n' && InStep(outputs, n')
  {
    hide InStep, HandleStep;
    ReadyMemory(outputs, n);
    CreditThrice(outputs, n);
    WriteSnapshotOk(outputs, n);
    HandleInStep(outputs, HandleStep(outputs, n));
    HandleInStep(outputs, HandleStep(outputs, HandleStep(outputs, n)));
  }
}
