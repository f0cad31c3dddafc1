/**
  What becomes of a debit whose payout could not be built. The receive loop goes on
  to the next event, and the offset that a later payout stores leaves it behind.
 */
module Payouts {
  import opened Sums
  import opened Ledger
  import opened LedgerSafety
  import opened Machine

  /** Not paid, below the stored offset, and not what the loop is at. */
  ghost predicate Lost(n: Node, k: Key) {
    && k !in n.d.paid && k.1 < Get(n.d.offsets, k.0)
    && (k.0 in n.debit ==> k.1 < n.debit[k.0].nonce)
  }

  lemma NextLost(outputs: seq<Output>, n: Node, step: Step, k: Key)
    requires Lost(n, k)
    ensures Lost(Next(outputs, n, step), k)
  {
    hide HandleStep, Enough, Decrease;
    if step.Handle? {
      HandleOffsets(outputs, n);
    } else if step.Debit? {
      DebitRest(n, step.pid);
    }
  }

  lemma HandleOffsets(outputs: seq<Output>, n: Node)
    ensures var n' := HandleStep(outputs, n); n'.d.offsets == n.d.offsets && n'.d.paid == n.d.paid && n'.debit == n.debit
  {
    hide HandleStep, Increase;
    var k, s := HandleEffect(outputs, n);
    IncreaseRest(n.d, k, s);
  }

  lemma IncreaseRest(d: Durable, k: Key, s: Snapshot)
    ensures Increase(d, k, s).offsets == d.offsets && Increase(d, k, s).paid == d.paid
  {
  }

  lemma DebitRest(n: Node, pid: Pid)
    ensures var n' := DebitStep(n, pid);
      && n'.d.offsets == n.d.offsets && n'.d.paid == n.d.paid && n'.debit.Keys == n.debit.Keys
      && forall p :: p in n.debit ==> n'.debit[p].nonce == n.debit[p].nonce
  {
    hide Enough, Decrease;
    if pid in n.debit && n.debit[pid].Checked? {
      var k := (pid, n.debit[pid].nonce);
      if k in n.d.events && Enough(n.d, k, DebitOf(n.d.events[k])) {
        DecreaseRest(n.d, k, DebitOf(n.d.events[k]));
      }
    }
  }

  lemma DecreaseRest(d: Durable, k: Key, s: Snapshot)
    requires Enough(d, k, s)
    ensures Decrease(d, k, s).offsets == d.offsets && Decrease(d, k, s).paid == d.paid
  {
  }

  /** Once lost, never paid: by no steps over any outputs, restarts included. */
  lemma {:induction false} LostForGood(outputs: seq<Output>, n: Node, steps: seq<Step>, k: Key)
    requires Lost(n, k)
    ensures Lost(After(outputs, n, steps), k)
  {
    hide Next, Lost;
    if steps != [] {
      LostForGood(outputs, n, steps[..|steps| - 1], k);
      NextLost(outputs, After(outputs, n, steps[..|steps| - 1]), steps[|steps| - 1], k);
    }
  }

  /** The steps that try a payout again */
  ghost function Retry(k: Key): seq<Step> {
    [Restart(0)] + SettleSteps(k.0, k.1, true)
  }

  /** Some continuation pays the event. */
  ghost predicate CanBePaid(outputs: seq<Output>, n: Node, k: Key) {
    exists steps: seq<Step> :: k in After(outputs, n, steps).d.paid
  }

  /** Debited and not yet paid, with the loop between two events: it can still be paid exactly if the offset has not passed it. */
  lemma PayableExactly(outputs: seq<Output>, n: Node, k: Key)
    requires Books(n) && k in n.d.dec && k !in n.d.paid && k.0 !in n.debit
    ensures CanBePaid(outputs, n, k) <==> Get(n.d.offsets, k.0) <= k.1
  {
    hide Books, Next;
    if Get(n.d.offsets, k.0) <= k.1 {
      Retried(outputs, n, k);
    } else {
      forall steps: seq<Step> ensures k !in After(outputs, n, steps).d.paid {
        LostForGood(outputs, n, steps, k);
      }
    }
  }

  lemma Retried(outputs: seq<Output>, n: Node, k: Key)
    requires Books(n) && k in n.d.dec && Get(n.d.offsets, k.0) <= k.1
    ensures k in After(outputs, n, Retry(k)).d.paid
  {
    hide Books, SettleSteps, Settled, Affordable, RestartStep, After;
    DebitIsOfEvent(n, k);
    var restarted := RestartStep(n, 0);
    RestartBooks(n, 0);
    RetryAffordable(n, k);
    SettledWhole(outputs, restarted, k.0, k.1, true);
    SettledPays(restarted, k);
    OneStep(outputs, n, Restart(0));
    AfterSplit(outputs, n, [Restart(0)], SettleSteps(k.0, k.1, true));
  }

  lemma RetryAffordable(n: Node, k: Key)
    requires k in n.d.dec && k in n.d.events && Ledger.Payable(k, n.d.events[k]) && Get(n.d.offsets, k.0) <= k.1
    ensures Affordable(RestartStep(n, 0), k.0, k.1)
  {
  }

  lemma SettledPays(n: Node, k: Key)
    requires Affordable(n, k.0, k.1)
    ensures k in Settled(n, k.0, k.1, true).d.paid
  {
    hide Decrease, Affordable;
  }

  lemma DebitIsOfEvent(n: Node, k: Key)
    requires Books(n) && k in n.d.dec
    ensures k in n.d.events && Ledger.Payable(k, n.d.events[k])
  {
    hide Balanced, DebitsOk;
  }

  // ---------- a run that loses one ----------

  /** A process, and a deposit for it */
  function Funded(o: Credit, address: string): seq<Output> {
    [Registration(o.pid, address, true), o]
  }

  /** Two events of the process are stored; the payout of the first fails, that of the second succeeds. */
  ghost function Losing(pid: Pid, e0: ChainEvent, e1: ChainEvent): seq<Step> {
    Handles(5) + ([ChainLog(pid, 0, e0)] + ([ChainLog(pid, 1, e1)] + (SettleSteps(pid, 0, false) + SettleSteps(pid, 1, true))))
  }

  lemma FundedNode(o: Credit, address: string)
    requires o.fits
    ensures var n := Run(Funded(o, address), Handles(5));
      && Books(n) && n.d.balances == map[(o.pid, o.asset) := o.amount]
      && n.d.dec == map[] && n.d.paid == map[] && n.d.events == map[] && n.d.offsets == map[] && n.debit == map[] && n.processed == {}
  {
    hide Books, HandleStep;
    var outputs := Funded(o, address);
    FreshBooks();
    AfterBooks(outputs, FRESH_NODE, Handles(5));
    HandleThrice(outputs, FRESH_NODE);
    EnrollTwice(outputs, FRESH_NODE);
    var n2 := After(outputs, FRESH_NODE, Handles(2));
    assert Handles(5) == Handles(2) + Handles(3);
    AfterSplit(outputs, FRESH_NODE, Handles(2), Handles(3));
    HandleThrice(outputs, n2);
    CreditThrice(outputs, n2);
  }

  lemma LogStored(outputs: seq<Output>, n: Node, pid: Pid, nonce: nat, e: ChainEvent)
    requires Books(n) && (pid, nonce) !in n.d.events
    ensures var n' := n.(d := n.d.(events := n.d.events[(pid, nonce) := e]));
      After(outputs, n, [ChainLog(pid, nonce, e)]) == n' && Books(n')
  {
    hide Books;
    OneStep(outputs, n, ChainLog(pid, nonce, e));
    NextBooks(outputs, n, ChainLog(pid, nonce, e));
  }

  /** A debit that is never paid can be reached. */
  lemma LostRun(o: Credit, address: string, e0: ChainEvent, e1: ChainEvent)
    requires o.fits && e0.process == o.pid && e1.process == o.pid && e0.asset == o.asset && e1.asset == o.asset
    requires e0.amount > 0 && e1.amount > 0 && e0.amount + e1.amount <= o.amount
    ensures var n := Run(Funded(o, address), Losing(o.pid, e0, e1));
      var k := (o.pid, 0);
      k in n.d.dec && n.d.dec[k] == DebitOf(e0) && Lost(n, k)
  {
    hide Books, SettleSteps, Handles, Next, Run;
    var outputs, pid := Funded(o, address), o.pid;
    FundedNode(o, address);
    RunIs(outputs, Handles(5));
    RunIs(outputs, Losing(pid, e0, e1));
    var n := Run(outputs, Handles(5));
    LogStored(outputs, n, pid, 0, e0);
    var n1 := n.(d := n.d.(events := n.d.events[(pid, 0) := e0]));
    LogStored(outputs, n1, pid, 1, e1);
    var n2 := n1.(d := n1.d.(events := n1.d.events[(pid, 1) := e1]));
    SettledWhole(outputs, n2, pid, 0, false);
    var n3 := Settled(n2, pid, 0, false);
    SettledWhole(outputs, n3, pid, 1, true);
    AfterSplit(outputs, n2, SettleSteps(pid, 0, false), SettleSteps(pid, 1, true));
    var settles := SettleSteps(pid, 0, false) + SettleSteps(pid, 1, true);
    AfterSplit(outputs, n1, [ChainLog(pid, 1, e1)], settles);
    AfterSplit(outputs, n, [ChainLog(pid, 0, e0)], [ChainLog(pid, 1, e1)] + settles);
    AfterSplit(outputs, FRESH_NODE, Handles(5), [ChainLog(pid, 0, e0)] + ([ChainLog(pid, 1, e1)] + settles));
  }
}
