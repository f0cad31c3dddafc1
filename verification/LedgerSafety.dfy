/**
  Over every interleaving of outputs, debits, payouts and restarts: payouts never
  exceed debits, nor debits credits, and no balance is short when it is debited. If
  replays keep to the order, and go back no further than they may, each deposit is
  credited once and gets one nonce, as if the node had never stopped.
 */
module LedgerSafety {
  import opened Sums
  import opened Ledger

  // ---------- the crash-free assignment ----------

  /** Nonces are gap-free, each belongs to one deposit of its process, and no identifier has two. */
  ghost predicate Gapless(a: Intake) {
    && (forall pid, i: nat :: (pid, i) in a.admitted <==> pid in a.nonces && i < a.nonces[pid])
    && (forall k :: k in a.admitted ==> a.admitted[k].pid == k.0 && a.admitted[k].fits && a.admitted[k].id in a.identifiers)
    && (forall k, k' :: k in a.admitted && k' in a.admitted && a.admitted[k].id == a.admitted[k'].id ==> k == k')
    && (forall id :: id in a.identifiers ==> exists k :: k in a.admitted && a.admitted[k].id == id)
  }

  lemma RecordGapless(a: Intake, o: Output)
    requires Gapless(a) && Acceptable(o, a.nonces) && o.id !in a.identifiers
    ensures Gapless(Record(a, o, a.nonces[o.pid]))
  {
    var k := (o.pid, a.nonces[o.pid]);
    var a' := Record(a, o, k.1);
    assert k !in a.admitted;
    forall id | id in a'.identifiers
      ensures exists x :: x in a'.admitted && a'.admitted[x].id == id
    {
      if id == o.id {
        assert a'.admitted[k].id == id;
      } else {
        var x :| x in a.admitted && a.admitted[x].id == id;
        assert a'.admitted[x].id == id;
      }
    }
  }

  lemma EnrollGapless(a: Intake, pid: Pid, address: string)
    requires Gapless(a)
    ensures Gapless(Enroll(a, pid, address))
  {
  }

  lemma {:induction false} AssignGapless(outs: seq<Output>)
    ensures Gapless(Assign(outs))
  {
    hide Gapless, Record, Enroll;
    if outs != [] {
      AssignGapless(outs[..|outs| - 1]);
      var a, o := Assign(outs[..|outs| - 1]), outs[|outs| - 1];
      if Acceptable(o, a.nonces) && o.id !in a.identifiers {
        RecordGapless(a, o);
      } else if Enrolls(o, a.nonces, a.addresses) {
        EnrollGapless(a, o.pid, o.address);
      }
    } else {
      NothingGapless();
    }
  }

  lemma NothingGapless()
    ensures Gapless(NO_INTAKE)
  {
  }

  lemma NextNonceFree(outs: seq<Output>, pid: Pid)
    requires pid in Assign(outs).nonces
    ensures (pid, Assign(outs).nonces[pid]) !in Assign(outs).admitted
  {
    AssignGapless(outs);
  }

  /** One more output. */
  lemma AssignLast(outs: seq<Output>, o: Output)
    ensures Assign(outs + [o]) == Take(Assign(outs), o)
  {
    assert (outs + [o])[..|outs|] == outs;
  }

  /** Acceptance looks at earlier outputs only. */
  lemma AcceptedEarlier(outs: seq<Output>, o: Output, j: nat)
    requires j < |outs|
    ensures Accepted(outs + [o], j) <==> Accepted(outs, j)
  {
    assert (outs + [o])[..j] == outs[..j];
  }

  ghost predicate Carries(outs: seq<Output>, id: string) {
    exists j: nat :: j < |outs| && Accepted(outs, j) && outs[j].id == id
  }

  lemma CarriesLast(outs: seq<Output>, o: Output, id: string)
    ensures Carries(outs + [o], id) <==> Carries(outs, id) || (Acceptable(o, Assign(outs).nonces) && o.id == id)
  {
    var all := outs + [o];
    assert all[..|outs|] == outs;
    if Carries(outs, id) {
      var j: nat :| j < |outs| && Accepted(outs, j) && outs[j].id == id;
      AcceptedEarlier(outs, o, j);
      assert Accepted(all, j) && all[j].id == id;
    } else if Acceptable(o, Assign(outs).nonces) && o.id == id {
      assert Accepted(all, |outs|) && all[|outs|].id == id;
    } else if Carries(all, id) {
      var j: nat :| j < |all| && Accepted(all, j) && all[j].id == id;
      if j < |outs| {
        AcceptedEarlier(outs, o, j);
      }
      assert false;
    }
  }

  /** An identifier is recorded exactly when an accepted deposit carries it. */
  lemma {:induction false} AssignIdentifiers(outs: seq<Output>, id: string)
    ensures id in Assign(outs).identifiers <==> Carries(outs, id)
  {
    if outs != [] {
      var before, o := outs[..|outs| - 1], outs[|outs| - 1];
      assert outs == before + [o];
      AssignIdentifiers(before, id);
      CarriesLast(before, o, id);
      AssignLast(before, o);
    }
  }

  lemma TakeKeeps(a: Intake, o: Output, k: Key)
    requires Gapless(a) && k in a.admitted
    ensures k in Take(a, o).admitted && Take(a, o).admitted[k] == a.admitted[k]
  {
  }

  /** Of the accepted deposits that share an identifier, the first one gets the nonce, and it keeps it. */
  lemma {:induction false} AssignFirst(outs: seq<Output>, j: nat)
    requires j < |outs| && Accepted(outs, j)
    requires forall i :: 0 <= i < j && Accepted(outs, i) ==> outs[i].id != outs[j].id
    ensures var k := (outs[j].pid, Assign(outs[..j]).nonces[outs[j].pid]);
      k in Assign(outs).admitted && Assign(outs).admitted[k] == outs[j]
    decreases |outs|
  {
    hide Gapless, Take;
    var before, o := outs[..|outs| - 1], outs[|outs| - 1];
    assert outs == before + [o];
    AssignLast(before, o);
    if j < |before| {
      assert before[..j] == outs[..j];
      AssignGapless(before);
      forall i | 0 <= i < j && Accepted(before, i) ensures before[i].id != before[j].id {
        AcceptedEarlier(before, o, i);
      }
      AssignFirst(before, j);
      TakeKeeps(Assign(before), o, (outs[j].pid, Assign(outs[..j]).nonces[outs[j].pid]));
    } else {
      FirstIsNew(outs, j);
      TakeNew(Assign(before), o);
    }
  }

  lemma TakeNew(a: Intake, o: Output)
    requires Acceptable(o, a.nonces) && o.id !in a.identifiers
    ensures var k := (o.pid, a.nonces[o.pid]); k in Take(a, o).admitted && Take(a, o).admitted[k] == o
  {
  }

  /** The first accepted deposit with its identifier finds that unrecorded, and any later one does not. */
  lemma FirstIsNew(outs: seq<Output>, j: nat)
    requires j < |outs| && Accepted(outs, j)
    ensures outs[j].id !in Assign(outs[..j]).identifiers <==> forall i :: 0 <= i < j && Accepted(outs, i) ==> outs[i].id != outs[j].id
  {
    var before := outs[..j];
    AssignIdentifiers(before, outs[j].id);
    forall i | 0 <= i < j ensures Accepted(before, i) <==> Accepted(outs, i) {
      assert before[..i] == outs[..i];
    }
    if Carries(before, outs[j].id) {
      var i: nat :| i < j && Accepted(before, i) && before[i].id == outs[j].id;
      assert Accepted(outs, i) && outs[i].id == outs[j].id;
    } else {
      forall i | 0 <= i < j && Accepted(outs, i) ensures outs[i].id != outs[j].id {
        assert Accepted(before, i) && before[i] == outs[i];
      }
    }
  }

  /** The credits of the assignment add up to what the outputs bring. */
  lemma {:induction false} AssignEarns(outs: seq<Output>, pid: Pid, asset: AssetId)
    ensures Sum(Credits(Assign(outs).admitted), pid, asset) == Earned(outs, pid, asset)
  {
    if outs == [] {
      assert Of(Credits(map[]), pid, asset) == map[];
    } else {
      hide Sum, Gapless;
      var last := |outs| - 1;
      var before, o := outs[..last], outs[last];
      var a := Assign(before);
      AssignEarns(before, pid, asset);
      if Accepted(outs, last) {
        FirstIsNew(outs, last);
        if o.id !in a.identifiers {
          NextNonceFree(before, o.pid);
          CreditsRecord(a, o);
          SumInsert(Credits(a.admitted), (o.pid, a.nonces[o.pid]), CreditOf(o), pid, asset);
        }
      }
    }
  }

  lemma CreditsRecord(a: Intake, o: Output)
    requires Acceptable(o, a.nonces)
    ensures Credits(Record(a, o, a.nonces[o.pid]).admitted) == Credits(a.admitted)[(o.pid, a.nonces[o.pid]) := CreditOf(o)]
  {
  }

  /** A registration once dealt with is never taken again. */
  lemma {:induction false} RegistrationsDone(outs: seq<Output>, j: nat)
    requires j < |outs|
    ensures !Enrolls(outs[j], Assign(outs).nonces, Assign(outs).addresses)
  {
    var before, o := outs[..|outs| - 1], outs[|outs| - 1];
    if j < |before| {
      RegistrationsDone(before, j);
    }
  }

  // ---------- balances ----------

  lemma IncreaseBalanced(d: Durable, k: Key, s: Snapshot)
    requires Balanced(d.balances, d.inc, d.dec)
    ensures var d' := Increase(d, k, s); Balanced(d'.balances, d'.inc, d'.dec)
    ensures forall b :: Get(Increase(d, k, s).balances, b) >= Get(d.balances, b)
  {
    hide Sum;
    if k !in d.inc {
      forall pid, asset
        ensures Get(Increase(d, k, s).balances, (pid, asset)) + Sum(d.dec, pid, asset) == Sum(d.inc[k := s], pid, asset)
      {
        SumInsert(d.inc, k, s, pid, asset);
      }
    }
  }

  lemma DecreaseBalanced(d: Durable, k: Key, s: Snapshot)
    requires Balanced(d.balances, d.inc, d.dec) && Enough(d, k, s)
    ensures var d' := Decrease(d, k, s); Balanced(d'.balances, d'.inc, d'.dec)
    ensures forall b: (Pid, AssetId) :: b.0 != k.0 ==> Get(Decrease(d, k, s).balances, b) == Get(d.balances, b)
  {
    hide Sum;
    if k !in d.dec {
      forall pid, asset
        ensures Get(Decrease(d, k, s).balances, (pid, asset)) + Sum(d.dec[k := s], pid, asset) == Sum(d.inc, pid, asset)
      {
        SumInsert(d.dec, k, s, pid, asset);
      }
    }
  }

  // ---------- crediting ----------

  /** Dealing with one more output extends the assignment. */
  lemma AssignOne(outputs: seq<Output>, done: nat)
    requires done < |outputs|
    ensures Assign(outputs[..done + 1]) == Take(Assign(outputs[..done]), outputs[done])
  {
    assert outputs[..done + 1][..done] == outputs[..done];
  }

  lemma SkipOk(outputs: seq<Output>, n: Node)
    requires InStep(outputs, n) && n.credit.Ready? && n.position < |outputs|
    requires var o := outputs[n.position];
      !(Acceptable(o, n.memory) && o.id !in n.d.intake.identifiers) && !Enrolls(o, n.memory, n.known)
    ensures InStep(outputs, HandleStep(outputs, n))
  {
    hide Assign, Credits;
    AssignOne(outputs, n.position);
  }

  lemma EnrollOk(outputs: seq<Output>, n: Node)
    requires InStep(outputs, n) && n.credit.Ready? && n.position < |outputs|
    requires Enrolls(outputs[n.position], n.memory, n.known)
    ensures InStep(outputs, HandleStep(outputs, n))
  {
    hide Assign, Credits;
    if n.position < n.done {
      RegistrationsDone(outputs[..n.done], n.position);
    }
    AssignOne(outputs, n.done);
  }

  /** The snapshot about to be written, if it exists already, is the same. */
  lemma IncreaseCredits(outputs: seq<Output>, done: nat, d: Durable)
    requires done < |outputs| && d.intake == Assign(outputs[..done]) && CreditsOk(outputs, done, d.inc, d.intake)
    requires Acceptable(outputs[done], d.intake.nonces) && outputs[done].id !in d.intake.identifiers
    ensures var o := outputs[done]; var k := (o.pid, d.intake.nonces[o.pid]);
      Increase(d, k, CreditOf(o)).inc == Credits(d.intake.admitted)[k := CreditOf(o)]
  {
    hide Assign;
    NextNonceFree(outputs[..done], outputs[done].pid);
  }

  lemma WriteSnapshotOk(outputs: seq<Output>, n: Node)
    requires InStep(outputs, n) && n.credit.Ready? && n.position < |outputs|
    requires var o := outputs[n.position]; Acceptable(o, n.memory) && o.id !in n.d.intake.identifiers
    ensures InStep(outputs, HandleStep(outputs, n)) && n.position == n.done
  {
    hide Assign, Credits;
    IncreaseCredits(outputs, n.done, n.d);
  }

  lemma WriteNonceOk(outputs: seq<Output>, n: Node)
    requires InStep(outputs, n) && n.credit.Credited?
    ensures InStep(outputs, HandleStep(outputs, n))
  {
    hide Assign, Credits;
    AssignOne(outputs, n.done);
    CreditsRecord(n.d.intake, outputs[n.done]);
  }

  lemma WriteMemoryOk(outputs: seq<Output>, n: Node)
    requires InStep(outputs, n) && (n.credit.Recorded? || n.credit.Enrolled?)
    ensures InStep(outputs, HandleStep(outputs, n))
  {
    hide Assign, Credits, CreditsOk;
  }

  lemma HandleInStep(outputs: seq<Output>, n: Node)
    requires InStep(outputs, n)
    ensures InStep(outputs, HandleStep(outputs, n))
  {
    hide InStep;
    if n.position < |outputs| && n.credit.Ready? {
      var o := outputs[n.position];
      if Acceptable(o, n.memory) && o.id !in n.d.intake.identifiers {
        WriteSnapshotOk(outputs, n);
      } else if Enrolls(o, n.memory, n.known) {
        EnrollOk(outputs, n);
      } else {
        SkipOk(outputs, n);
      }
    } else if n.credit.Credited? {
      WriteNonceOk(outputs, n);
    } else if !n.credit.Ready? {
      WriteMemoryOk(outputs, n);
    }
  }

  /** Where a restart may resume. */
  ghost predicate Resumable(outputs: seq<Output>, n: Node, step: Step) {
    step.Restart? ==> Replayable(outputs, n.d.intake, if step.position <= n.position then step.position else n.position, n.done)
  }

  /** Nothing else a step may change matters here. */
  lemma InStepFrame(outputs: seq<Output>, n: Node, n': Node)
    requires InStep(outputs, n) && n'.d.intake == n.d.intake && n'.d.inc == n.d.inc
    requires n' == n.(d := n'.d, processed := n'.processed, debit := n'.debit, short := n'.short)
    ensures InStep(outputs, n')
  {
    hide Assign, Credits, CreditsOk, Replayable;
  }

  lemma RestartInStep(outputs: seq<Output>, n: Node, position: nat)
    requires InStep(outputs, n) && Resumable(outputs, n, Restart(position))
    ensures InStep(outputs, RestartStep(n, position))
  {
    hide Assign, Credits, CreditsOk, Replayable;
  }

  lemma NextInStep(outputs: seq<Output>, n: Node, step: Step)
    requires InStep(outputs, n) && Resumable(outputs, n, step)
    ensures InStep(outputs, Next(outputs, n, step))
  {
    hide InStep, Resumable, HandleStep, Enough;
    if step.Handle? {
      HandleInStep(outputs, n);
    } else if step.Restart? {
      RestartInStep(outputs, n, step.position);
    } else {
      InStepFrame(outputs, n, Next(outputs, n, step));
    }
  }

  // ---------- debiting and paying ----------

  /** Handling an output writes a credit or changes the intake. */
  lemma HandleEffect(outputs: seq<Output>, n: Node) returns (k: Key, s: Snapshot)
    ensures var n' := HandleStep(outputs, n);
      && n'.short == n.short && n'.debit == n.debit
      && (n'.d == n.d.(intake := n'.d.intake) || n'.d == Increase(n.d, k, s))
  {
    hide Increase, Record, Enroll;
    k, s := ("", 0), Snapshot("", 0);
    if n.position < |outputs| && n.credit.Ready? {
      var o := outputs[n.position];
      if Acceptable(o, n.memory) && o.id !in n.d.intake.identifiers {
        k, s := (o.pid, n.memory[o.pid]), CreditOf(o);
      }
    }
  }

  lemma HandleBooks(outputs: seq<Output>, n: Node)
    requires Books(n)
    ensures Books(HandleStep(outputs, n)) && HandleStep(outputs, n).d.paid == n.d.paid
  {
    hide Balanced, PaidIsDebited, DebitsOk, Increase, HandleStep;
    var k, s := HandleEffect(outputs, n);
    IncreaseBooks(n.d, n.debit, k, s);
  }

  lemma IncreaseBooks(d: Durable, debit: map<Pid, DebitStage>, k: Key, s: Snapshot)
    requires Balanced(d.balances, d.inc, d.dec) && DebitsOk(d.balances, d.dec, d.events, debit)
    ensures var d' := Increase(d, k, s);
      && Balanced(d'.balances, d'.inc, d'.dec) && DebitsOk(d'.balances, d'.dec, d'.events, debit)
      && d'.dec == d.dec && d'.events == d.events && d'.paid == d.paid
  {
    hide Balanced;
    IncreaseBalanced(d, k, s);
  }

  lemma CheckBooks(n: Node, pid: Pid, nonce: nat)
    requires Books(n)
    ensures Books(CheckStep(n, pid, nonce))
  {
    hide Balanced, PaidIsDebited;
  }

  lemma ChainLogBooks(outputs: seq<Output>, n: Node, pid: Pid, nonce: nat, e: ChainEvent)
    requires Books(n)
    ensures Books(Next(outputs, n, ChainLog(pid, nonce, e)))
  {
    hide Balanced;
  }

  /** No other process's debit depends on the account debited. */
  lemma DecreaseDebits(d: Durable, debit: map<Pid, DebitStage>, pid: Pid, nonce: nat)
    requires DebitsOk(d.balances, d.dec, d.events, debit) && PaidIsDebited(d.dec, d.events, d.paid)
    requires pid in debit && debit[pid] == Checked(nonce)
    ensures var k := (pid, nonce);
      k in d.events && Enough(d, k, DebitOf(d.events[k])) &&
      var d' := Decrease(d, k, DebitOf(d.events[k]));
      DebitsOk(d'.balances, d'.dec, d.events, debit[pid := Debited(nonce)]) && PaidIsDebited(d'.dec, d.events, d.paid)
  {
    var k := (pid, nonce);
    var d' := Decrease(d, k, DebitOf(d.events[k]));
    forall p | p in debit && p != pid
      ensures forall asset :: Get(d'.balances, (p, asset)) == Get(d.balances, (p, asset))
    {
    }
  }

  /** A debit that was checked is covered when it is written, whatever other processes did in between. */
  lemma DebitBooks(n: Node, pid: Pid)
    requires Books(n)
    ensures Books(DebitStep(n, pid))
  {
    hide Balanced, PaidIsDebited, DebitsOk;
    if pid in n.debit && n.debit[pid].Checked? {
      var k := (pid, n.debit[pid].nonce);
      DecreaseDebits(n.d, n.debit, pid, k.1);
      DecreaseBalanced(n.d, k, DebitOf(n.d.events[k]));
    }
  }

  /** A payout for a trace id that was paid before repeats the same asset and amount. */
  lemma PayBooks(n: Node, pid: Pid, succeeds: bool)
    requires Books(n)
    ensures Books(PayStep(n, pid, succeeds))
    ensures forall k :: k in n.d.paid ==> k in PayStep(n, pid, succeeds).d.paid && PayStep(n, pid, succeeds).d.paid[k] == n.d.paid[k]
  {
    hide Balanced;
  }

  lemma AdvanceBooks(n: Node, pid: Pid)
    requires Books(n)
    ensures Books(AdvanceStep(n, pid))
  {
    hide Balanced, PaidIsDebited;
  }

  lemma RestartBooks(n: Node, position: nat)
    requires Books(n)
    ensures Books(RestartStep(n, position))
  {
    hide Balanced, PaidIsDebited;
  }

  lemma NextBooks(outputs: seq<Output>, n: Node, step: Step)
    requires Books(n)
    ensures Books(Next(outputs, n, step))
  {
    hide Books, HandleStep, CheckStep, DebitStep, PayStep, AdvanceStep, RestartStep;
    match step
    case Handle => HandleBooks(outputs, n);
    case ChainLog(pid, nonce, e) => ChainLogBooks(outputs, n, pid, nonce, e);
    case Check(pid, nonce) => CheckBooks(n, pid, nonce);
    case Debit(pid) => DebitBooks(n, pid);
    case Pay(pid, succeeds) => PayBooks(n, pid, succeeds);
    case Advance(pid) => AdvanceBooks(n, pid);
    case Restart(position) => RestartBooks(n, position);
  }

  lemma NextPaid(outputs: seq<Output>, n: Node, step: Step)
    requires Books(n)
    ensures forall k :: k in n.d.paid ==> k in Next(outputs, n, step).d.paid && Next(outputs, n, step).d.paid[k] == n.d.paid[k]
  {
    hide Books, PayStep, HandleStep, Enough;
    if step.Pay? {
      PayBooks(n, step.pid, step.succeeds);
    } else if step.Handle? {
      HandleBooks(outputs, n);
    }
  }

  // ---------- whole runs ----------

  lemma {:induction false} AfterBooks(outputs: seq<Output>, n: Node, steps: seq<Step>)
    requires Books(n)
    ensures Books(After(outputs, n, steps))
    ensures forall k :: k in n.d.paid ==> k in After(outputs, n, steps).d.paid && After(outputs, n, steps).d.paid[k] == n.d.paid[k]
  {
    hide Books, Next;
    if steps != [] {
      AfterBooks(outputs, n, steps[..|steps| - 1]);
      NextBooks(outputs, After(outputs, n, steps[..|steps| - 1]), steps[|steps| - 1]);
      NextPaid(outputs, After(outputs, n, steps[..|steps| - 1]), steps[|steps| - 1]);
    }
  }

  /** Every restart of the run resumes where it may. */
  ghost predicate Resumes(outputs: seq<Output>, n: Node, steps: seq<Step>) {
    forall i :: 0 <= i < |steps| ==> Resumable(outputs, After(outputs, n, steps[..i]), steps[i])
  }

  lemma {:induction false} AfterInStep(outputs: seq<Output>, n: Node, steps: seq<Step>)
    requires InStep(outputs, n) && Resumes(outputs, n, steps)
    ensures InStep(outputs, After(outputs, n, steps))
  {
    hide InStep, Next, Resumable;
    if steps != [] {
      var before := steps[..|steps| - 1];
      forall i | 0 <= i < |before| ensures Resumable(outputs, After(outputs, n, before[..i]), before[i]) {
        assert before[..i] == steps[..i];
      }
      AfterInStep(outputs, n, before);
      NextInStep(outputs, After(outputs, n, before), steps[|steps| - 1]);
    }
  }

  lemma FreshBooks()
    ensures Books(FRESH_NODE)
  {
    forall pid, asset ensures Sum(map[], pid, asset) == 0 {
      assert Of(map[], pid, asset) == map[];
    }
  }

  lemma FreshInStep(outputs: seq<Output>)
    ensures InStep(outputs, FRESH_NODE)
  {
    assert FRESH_NODE.d.inc == Credits(map[]);
  }

  // ---------- main results ----------

  /** In every run, whatever is replayed: payouts, counted once per trace id, never exceed debits, nor debits credits, and no debit is short. */
  lemma PayoutsBounded(outputs: seq<Output>, steps: seq<Step>, pid: Pid, asset: AssetId)
    ensures var n := Run(outputs, steps);
      && !n.short
      && Sum(n.d.paid, pid, asset) <= Sum(n.d.dec, pid, asset) <= Sum(n.d.inc, pid, asset)
      && Get(n.d.balances, (pid, asset)) == Sum(n.d.inc, pid, asset) - Sum(n.d.dec, pid, asset)
  {
    hide Sum, DebitsOk, Next;
    FreshBooks();
    AfterBooks(outputs, FRESH_NODE, steps);
    var n := Run(outputs, steps);
    SumPart(n.d.paid, n.d.dec, pid, asset);
    assert Get(n.d.balances, (pid, asset)) + Sum(n.d.dec, pid, asset) == Sum(n.d.inc, pid, asset);
  }

  /** A payout once made is never changed by what follows. */
  lemma PayoutsAreFinal(outputs: seq<Output>, steps: seq<Step>, more: seq<Step>, k: Key)
    requires k in Run(outputs, steps).d.paid
    ensures var n' := Run(outputs, steps + more);
      k in n'.d.paid && n'.d.paid[k] == Run(outputs, steps).d.paid[k]
  {
    hide Books, Next;
    FreshBooks();
    AfterBooks(outputs, FRESH_NODE, steps);
    AfterSplit(outputs, FRESH_NODE, steps, more);
    AfterBooks(outputs, Run(outputs, steps), more);
  }

  lemma {:induction false} AfterSplit(outputs: seq<Output>, n: Node, steps: seq<Step>, more: seq<Step>)
    ensures After(outputs, n, steps + more) == After(outputs, After(outputs, n, steps), more)
  {
    hide Next;
    if more == [] {
      assert steps + more == steps;
    } else {
      AfterSplit(outputs, n, steps, more[..|more| - 1]);
      assert (steps + more)[..|steps + more| - 1] == steps + more[..|more| - 1];
    }
  }

  /** However often it stopped, the node holds what one that never stopped would, and has not panicked. */
  lemma ExactlyOnce(outputs: seq<Output>, steps: seq<Step>)
    requires Resumes(outputs, FRESH_NODE, steps)
    ensures var n := Run(outputs, steps);
      && !n.panicked && n.position <= n.done <= |outputs|
      && n.d.intake == Assign(outputs[..n.done])
      && Gapless(n.d.intake)
      && (forall k :: k in n.d.intake.admitted ==> k in n.d.inc && n.d.inc[k] == CreditOf(n.d.intake.admitted[k]))
  {
    hide Assign, Gapless, Next, Resumable;
    FreshInStep(outputs);
    AfterInStep(outputs, FRESH_NODE, steps);
    var n := Run(outputs, steps);
    AssignGapless(outputs[..n.done]);
    CreditsCover(outputs, n);
  }

  /** Restarts that resume with the output they were stopped at always may. */
  lemma {:induction false} ResumingInPlace(outputs: seq<Output>, steps: seq<Step>)
    requires forall i :: 0 <= i < |steps| && steps[i].Restart? ==> steps[i].position >= Run(outputs, steps[..i]).position
    ensures Resumes(outputs, FRESH_NODE, steps)
  {
    hide Next, Assign, CreditsOk;
    if steps != [] {
      var before, last := steps[..|steps| - 1], |steps| - 1;
      assert forall i :: 0 <= i < |before| ==> before[..i] == steps[..i] && before[i] == steps[i];
      ResumingInPlace(outputs, before);
      FreshInStep(outputs);
      AfterInStep(outputs, FRESH_NODE, before);
      forall i | 0 <= i < |steps| ensures Resumable(outputs, After(outputs, FRESH_NODE, steps[..i]), steps[i]) {
        if i < last {
          assert before[..i] == steps[..i];
        }
      }
    }
  }

  lemma CreditsCover(outputs: seq<Output>, n: Node)
    requires InStep(outputs, n)
    ensures forall k :: k in n.d.intake.admitted ==> k in n.d.inc && n.d.inc[k] == CreditOf(n.d.intake.admitted[k])
  {
    hide MemoryOk, Assign, Replayable;
    if n.d.inc != Credits(n.d.intake.admitted) {
      NextNonceFree(outputs[..n.done], outputs[n.done].pid);
    }
  }

  /** What is credited is what the outputs dealt with bring, but for one output whose nonce is still to be written. */
  lemma CreditsAreOutputs(outputs: seq<Output>, steps: seq<Step>, pid: Pid, asset: AssetId)
    requires Resumes(outputs, FRESH_NODE, steps)
    ensures var n := Run(outputs, steps);
      var credited := Get(n.d.balances, (pid, asset)) + Sum(n.d.dec, pid, asset);
      && n.done <= |outputs| && credited == Sum(n.d.inc, pid, asset)
      && (|| credited == Earned(outputs[..n.done], pid, asset)
          || (n.done < |outputs| && credited == Earned(outputs[..n.done + 1], pid, asset)))
  {
    hide Assign, Sum, Earned, Next, Run, Resumable, Replayable;
    FreshInStep(outputs);
    AfterInStep(outputs, FRESH_NODE, steps);
    PayoutsBounded(outputs, steps, pid, asset);
    RunIs(outputs, steps);
    var n := Run(outputs, steps);
    var a := n.d.intake;
    AssignEarns(outputs[..n.done], pid, asset);
    if n.d.inc != Credits(a.admitted) {
      AssignEarns(outputs[..n.done + 1], pid, asset);
      AssignOne(outputs, n.done);
      CreditsRecord(a, outputs[n.done]);
    }
  }

  lemma RunIs(outputs: seq<Output>, steps: seq<Step>)
    ensures Run(outputs, steps) == After(outputs, FRESH_NODE, steps)
  {
  }

  // ---------- why replays must keep to the order, and how far back they may go ----------

  lemma ThreeSteps(outputs: seq<Output>, n: Node, a: Step, b: Step, c: Step)
    ensures After(outputs, n, [a, b, c]) == Next(outputs, Next(outputs, Next(outputs, n, a), b), c)
  {
    hide Next;
    AfterSplit(outputs, n, [a], [b, c]);
    AfterSplit(outputs, Next(outputs, n, a), [b], [c]);
    assert [a] + [b, c] == [a, b, c] && [b] + [c] == [b, c];
  }

  function Handles(m: nat): seq<Step> {
    seq(m, _ => Handle)
  }

  lemma HandlesOne(outputs: seq<Output>, n: Node, m: nat)
    requires m > 0
    ensures After(outputs, n, Handles(m)) == HandleStep(outputs, After(outputs, n, Handles(m - 1)))
  {
    hide HandleStep;
    assert Handles(m)[..m - 1] == Handles(m - 1);
  }

  /** Between two outputs */
  ghost predicate Idle(n: Node) {
    n.credit.Ready? && n.memory == n.d.intake.nonces && n.known == n.d.intake.addresses
  }

  /** The credits after an uninterrupted output: a new acceptable deposit is credited unless its key already is. */
  function Credited(inc: map<Key, Snapshot>, a: Intake, o: Output): map<Key, Snapshot> {
    if Acceptable(o, a.nonces) && o.id !in a.identifiers && (o.pid, a.nonces[o.pid]) !in inc
    then inc[(o.pid, a.nonces[o.pid]) := CreditOf(o)] else inc
  }

  /** From one output to the next, as `Take` says */
  ghost predicate Handled(n: Node, o: Output, n': Node) {
    && Idle(n') && n'.position == n.position + 1
    && n'.d.intake == Take(n.d.intake, o) && n'.d.inc == Credited(n.d.inc, n.d.intake, o)
  }

  /** Whatever the outputs, handling one takes at most three steps. */
  lemma HandleWhole(outputs: seq<Output>, n: Node) returns (m: nat)
    requires Idle(n) && n.position < |outputs|
    ensures Handled(n, outputs[n.position], After(outputs, n, Handles(m)))
  {
    hide After, HandleStep, Handled;
    HandleThrice(outputs, n);
    var o, a := outputs[n.position], n.d.intake;
    if Acceptable(o, a.nonces) && o.id !in a.identifiers {
      m := 3;
      CreditHandled(outputs, n);
    } else if Enrolls(o, a.nonces, a.addresses) {
      m := 2;
      EnrollHandled(outputs, n);
    } else {
      m := 1;
      PassHandled(outputs, n);
    }
  }

  lemma CreditHandled(outputs: seq<Output>, n: Node)
    requires Idle(n) && n.position < |outputs|
    requires var o := outputs[n.position]; Acceptable(o, n.memory) && o.id !in n.d.intake.identifiers
    ensures Handled(n, outputs[n.position], HandleStep(outputs, HandleStep(outputs, HandleStep(outputs, n))))
  {
    hide HandleStep, Increase;
    var o := outputs[n.position];
    CreditThrice(outputs, n);
    IncreaseKeepsIntake(n.d, (o.pid, n.memory[o.pid]), CreditOf(o));
  }

  lemma EnrollHandled(outputs: seq<Output>, n: Node)
    requires Idle(n) && n.position < |outputs| && Enrolls(outputs[n.position], n.memory, n.known)
    ensures Handled(n, outputs[n.position], HandleStep(outputs, HandleStep(outputs, n)))
  {
    hide HandleStep;
    EnrollTwice(outputs, n);
  }

  lemma PassHandled(outputs: seq<Output>, n: Node)
    requires Idle(n) && n.position < |outputs|
    requires var o, a := outputs[n.position], n.d.intake;
      !(Acceptable(o, a.nonces) && o.id !in a.identifiers) && !Enrolls(o, a.nonces, a.addresses)
    ensures Handled(n, outputs[n.position], HandleStep(outputs, n))
  {
  }

  lemma HandleThrice(outputs: seq<Output>, n: Node)
    ensures After(outputs, n, Handles(1)) == HandleStep(outputs, n)
    ensures After(outputs, n, Handles(2)) == HandleStep(outputs, HandleStep(outputs, n))
    ensures After(outputs, n, Handles(3)) == HandleStep(outputs, HandleStep(outputs, HandleStep(outputs, n)))
  {
    hide HandleStep;
    HandlesOne(outputs, n, 1);
    HandlesOne(outputs, n, 2);
    HandlesOne(outputs, n, 3);
  }

  lemma CreditThrice(outputs: seq<Output>, n: Node)
    requires Idle(n) && n.position < |outputs|
    requires var o := outputs[n.position]; Acceptable(o, n.memory) && o.id !in n.d.intake.identifiers
    ensures var o := outputs[n.position];
      var nonce := n.memory[o.pid];
      var d := Increase(n.d, (o.pid, nonce), CreditOf(o));
      var beyond := if n.done <= n.position then n.position + 1 else n.done;
      HandleStep(outputs, HandleStep(outputs, HandleStep(outputs, n))) ==
        n.(d := d.(intake := Record(n.d.intake, o, nonce)), memory := n.memory[o.pid := nonce + 1], position := n.position + 1, done := beyond)
  {
    hide Increase, Record;
    var o := outputs[n.position];
    var nonce := n.memory[o.pid];
    IncreaseKeepsIntake(n.d, (o.pid, nonce), CreditOf(o));
    var n1 := n.(d := Increase(n.d, (o.pid, nonce), CreditOf(o)), credit := CreditStage.Credited);
    assert HandleStep(outputs, n) == n1;
    var beyond := if n.done <= n.position then n.position + 1 else n.done;
    var n2 := n1.(d := n1.d.(intake := Record(n.d.intake, o, nonce)), done := beyond, credit := Recorded);
    assert HandleStep(outputs, n1) == n2;
  }

  lemma EnrollTwice(outputs: seq<Output>, n: Node)
    requires Idle(n) && n.position < |outputs| && Enrolls(outputs[n.position], n.memory, n.known)
    ensures var o := outputs[n.position];
      var beyond := if n.done <= n.position then n.position + 1 else n.done;
      var a := n.d.intake;
      HandleStep(outputs, HandleStep(outputs, n)) ==
        n.(d := n.d.(intake := Enroll(a, o.pid, o.address)), memory := n.memory[o.pid := 0], known := n.known + {o.address},
           position := n.position + 1, done := beyond)
      && Enroll(a, o.pid, o.address).nonces == a.nonces[o.pid := 0] && Enroll(a, o.pid, o.address).addresses == a.addresses + {o.address}
  {
  }

  lemma IncreaseKeepsIntake(d: Durable, k: Key, s: Snapshot)
    ensures Increase(d, k, s).intake == d.intake
    ensures Increase(d, k, s).inc == if k in d.inc then d.inc else d.inc[k := s]
  {
  }

  function TakeAll(a: Intake, outs: seq<Output>): Intake {
    if outs == [] then a else Take(TakeAll(a, outs[..|outs| - 1]), outs[|outs| - 1])
  }

  /** The output at `i` is a deposit that gets a nonce of the process. */
  predicate GetsNonce(a: Intake, replay: seq<Output>, i: nat, pid: Pid)
    requires i < |replay|
  {
    var o, before := replay[i], TakeAll(a, replay[..i]);
    Acceptable(o, before.nonces) && o.pid == pid && o.id !in before.identifiers
  }

  /** Until an output gets a nonce of the process, its open nonce and what is credited there stay. */
  lemma {:induction false} ReplayKeeps(replay: seq<Output>, n: Node, k: Key, j: nat) returns (m: nat)
    requires Idle(n) && n.position == 0 && j <= |replay|
    requires k.0 in n.d.intake.nonces && n.d.intake.nonces[k.0] == k.1 && k in n.d.inc
    requires forall i :: 0 <= i < j ==> !GetsNonce(n.d.intake, replay, i, k.0)
    ensures var n' := After(replay, n, Handles(m));
      && Idle(n') && n'.position == j && n'.d.intake == TakeAll(n.d.intake, replay[..j])
      && k.0 in n'.d.intake.nonces && n'.d.intake.nonces[k.0] == k.1
      && k in n'.d.inc && n'.d.inc[k] == n.d.inc[k]
    decreases j
  {
    hide HandleStep, Enroll;
    if j == 0 {
      m := 0;
      assert Handles(0) == [];
    } else {
      var before := ReplayKeeps(replay, n, k, j - 1);
      var n1 := After(replay, n, Handles(before));
      var more := HandleWhole(replay, n1);
      m := before + more;
      assert Handles(m) == Handles(before) + Handles(more);
      AfterSplit(replay, n, Handles(before), Handles(more));
      assert replay[..j][..j - 1] == replay[..j - 1];
      assert !GetsNonce(n.d.intake, replay, j - 1, k.0);
      TakeOther(n1.d.intake, replay[j - 1], k.0);
    }
  }

  lemma TakeOther(a: Intake, o: Output, pid: Pid)
    requires pid in a.nonces && !(Acceptable(o, a.nonces) && o.pid == pid && o.id !in a.identifiers)
    ensures pid in Take(a, o).nonces && Take(a, o).nonces[pid] == a.nonces[pid]
  {
  }

  /**
    Stopped between snapshot and nonce, and replayed any outputs at all from there on,
    the node records the first deposit that gets a nonce of the process under the
    credit of the output it stopped at. The two agree exactly when they bring the same
    amount of the same asset.
   */
  lemma ReplayInAnotherOrder(outputs: seq<Output>, n: Node, replay: seq<Output>, j: nat) returns (m: nat)
    requires InStep(outputs, n) && n.credit.Credited? && j < |replay|
    requires GetsNonce(n.d.intake, replay, j, outputs[n.position].pid)
    requires forall i :: 0 <= i < j ==> !GetsNonce(n.d.intake, replay, i, outputs[n.position].pid)
    ensures var o := outputs[n.position];
      var k := (o.pid, n.memory[o.pid]);
      var n' := After(replay, RestartStep(n, 0), Handles(m));
      && k in n'.d.intake.admitted && n'.d.intake.admitted[k] == replay[j] && k in n'.d.inc
      && (n'.d.inc[k] == CreditOf(n'.d.intake.admitted[k]) <==> CreditOf(o) == CreditOf(replay[j]))
  {
    hide HandleStep, Assign, CreditsOk, Replayable, Enroll, TakeAll;
    var o := outputs[n.position];
    var k := (o.pid, n.memory[o.pid]);
    var restarted := RestartStep(n, 0);
    assert restarted.d.inc[k] == CreditOf(o);
    var before := ReplayKeeps(replay, restarted, k, j);
    var n1 := After(replay, restarted, Handles(before));
    var more := HandleWhole(replay, n1);
    m := before + more;
    assert Handles(m) == Handles(before) + Handles(more);
    AfterSplit(replay, restarted, Handles(before), Handles(more));
    TakeNew(n1.d.intake, replay[j]);
  }

  /** Credits once written are never changed, by any steps over any outputs. */
  lemma {:induction false} CreditsAreFinal(outputs: seq<Output>, n: Node, steps: seq<Step>, k: Key)
    requires k in n.d.inc
    ensures k in After(outputs, n, steps).d.inc && After(outputs, n, steps).d.inc[k] == n.d.inc[k]
  {
    hide Next;
    if steps != [] {
      CreditsAreFinal(outputs, n, steps[..|steps| - 1], k);
      CreditIsFinal(outputs, After(outputs, n, steps[..|steps| - 1]), steps[|steps| - 1], k);
    }
  }

  lemma CreditIsFinal(outputs: seq<Output>, n: Node, step: Step, k: Key)
    requires k in n.d.inc
    ensures k in Next(outputs, n, step).d.inc && Next(outputs, n, step).d.inc[k] == n.d.inc[k]
  {
    hide HandleStep, Enough;
    if step.Handle? {
      var k', s := HandleEffect(outputs, n);
    }
  }

  /** A process and two deposits for it */
  function TwoDeposits(a: Credit, b: Credit, address: string): seq<Output> {
    [Registration(a.pid, address, true), a, b]
  }

  /** A run can get there: stopped at the first deposit, and replayed the second first, it records the second under the first one's credit. */
  lemma MiscreditedRun(a: Credit, b: Credit, address: string) returns (m: nat)
    requires a.pid == b.pid && a.fits && b.fits && CreditOf(a) != CreditOf(b)
    ensures var n := Run(TwoDeposits(a, b, address), Handles(3));
      var n' := After([b, a], RestartStep(n, 0), Handles(m));
      var k := (a.pid, 0);
      && k in n'.d.intake.admitted && n'.d.intake.admitted[k] == b
      && k in n'.d.inc && n'.d.inc[k] != CreditOf(n'.d.intake.admitted[k])
  {
    hide After, InStep, Next, Take;
    var outputs := TwoDeposits(a, b, address);
    var n := Run(outputs, Handles(3));
    StoppedAtFirst(a, b, address);
    FreshInStep(outputs);
    AfterInStep(outputs, FRESH_NODE, Handles(3));
    var replay := [b, a];
    assert replay[..0] == [] && TakeAll(n.d.intake, []) == n.d.intake;
    m := ReplayInAnotherOrder(outputs, n, replay, 0);
  }

  lemma StoppedAtFirst(a: Credit, b: Credit, address: string)
    requires a.fits
    ensures var n := Run(TwoDeposits(a, b, address), Handles(3));
      n.credit == CreditStage.Credited && n.position == 1 && n.memory == map[a.pid := 0] && n.d.intake == Enroll(NO_INTAKE, a.pid, address)
  {
    hide Increase;
    var outputs := TwoDeposits(a, b, address);
    HandleThrice(outputs, FRESH_NODE);
    EnrollTwice(outputs, FRESH_NODE);
    IncreaseKeepsIntake(FRESH_NODE.d.(intake := Enroll(NO_INTAKE, a.pid, address)), (a.pid, 0), CreditOf(a));
  }

  /** The node restarted at `p`, `m` outputs further on with nothing else changed. */
  function PassedOver(n: Node, p: nat, m: nat): Node {
    RestartStep(n, p).(position := p + m)
  }

  /** At an output dealt with before, it moves on unchanged exactly if it does not credit that output now. */
  lemma ReplayOne(outputs: seq<Output>, n: Node, p: nat, m: nat)
    requires InStep(outputs, n) && p <= n.position && p + m < n.done
    ensures HandleStep(outputs, PassedOver(n, p, m)) == PassedOver(n, p, m + 1) <==>
      (Acceptable(outputs[p + m], n.d.intake.nonces) ==> outputs[p + m].id in n.d.intake.identifiers)
  {
    hide Assign, CreditsOk, Replayable, Increase, Enroll;
    RegistrationsDone(outputs[..n.done], p + m);
  }

  /** A replay from `p` passes over all outputs dealt with, changing nothing, exactly if it is replayable. */
  lemma ReplayExactly(outputs: seq<Output>, n: Node, p: nat)
    requires InStep(outputs, n) && p <= n.position
    ensures Replayable(outputs, n.d.intake, p, n.done) <==>
      forall m: nat :: p + m <= n.done ==> After(outputs, RestartStep(n, p), Handles(m)) == PassedOver(n, p, m)
  {
    hide InStep, HandleStep, RestartStep;
    if Replayable(outputs, n.d.intake, p, n.done) {
      forall m: nat | p + m <= n.done ensures After(outputs, RestartStep(n, p), Handles(m)) == PassedOver(n, p, m) {
        ReplayPasses(outputs, n, p, m);
      }
    } else {
      DoneInRange(outputs, n);
      var j :| p <= j < n.done && Acceptable(outputs[j], n.d.intake.nonces) && outputs[j].id !in n.d.intake.identifiers;
      ReplayOne(outputs, n, p, j - p);
      HandlesOne(outputs, RestartStep(n, p), j - p + 1);
      assert After(outputs, RestartStep(n, p), Handles(j - p)) != PassedOver(n, p, j - p)
          || After(outputs, RestartStep(n, p), Handles(j - p + 1)) != PassedOver(n, p, j - p + 1);
    }
  }

  lemma DoneInRange(outputs: seq<Output>, n: Node)
    requires InStep(outputs, n)
    ensures n.position <= n.done <= |outputs|
  {
    hide Assign, CreditsOk, Replayable;
  }

  lemma {:induction false} ReplayPasses(outputs: seq<Output>, n: Node, p: nat, m: nat)
    requires InStep(outputs, n) && p <= n.position && p + m <= n.done && Replayable(outputs, n.d.intake, p, n.done)
    ensures After(outputs, RestartStep(n, p), Handles(m)) == PassedOver(n, p, m)
    decreases m
  {
    hide InStep, HandleStep;
    DoneInRange(outputs, n);
    if m > 0 {
      ReplayPasses(outputs, n, p, m - 1);
      ReplayOne(outputs, n, p, m - 1);
      HandlesOne(outputs, RestartStep(n, p), m);
    }
  }

  /** A deposit, and after it the registration of its process. */
  function Early(o: Credit, address: string): seq<Output> {
    [o, Registration(o.pid, address, true)]
  }

  /** The node after dropping the one and taking the other */
  function Registered(o: Credit, address: string): Node {
    FRESH_NODE.(d := FRESH_NODE.d.(intake := Enroll(NO_INTAKE, o.pid, address)), memory := map[o.pid := 0], known := {address}, position := 2, done := 2)
  }

  lemma RunRegisters(o: Credit, address: string)
    ensures Run(Early(o, address), Handles(3)) == Registered(o, address)
    ensures Assign(Early(o, address)) == Enroll(NO_INTAKE, o.pid, address)
  {
    hide Increase;
    var outputs := Early(o, address);
    HandlesOne(outputs, FRESH_NODE, 1);
    HandlesOne(outputs, FRESH_NODE, 2);
    HandlesOne(outputs, FRESH_NODE, 3);
    assert After(outputs, FRESH_NODE, Handles(1)) == FRESH_NODE.(position := 1, done := 1);
    assert outputs[..1] == [o] && Assign([o]) == NO_INTAKE;
  }

  /** A run can get there: the deposit is dropped before its process exists, and credited when replayed after. */
  lemma DroppedThenCredited(o: Credit, address: string)
    requires o.fits
    ensures var outputs := Early(o, address);
      var n := Run(outputs, Handles(3));
      && n.done == 2 && o.id !in n.d.intake.identifiers && n.d.intake == Assign(outputs)
      && o.id in After(outputs, n, [Restart(0), Handle, Handle]).d.intake.identifiers
  {
    hide Increase, Run, Assign, After;
    var n := Registered(o, address);
    RunRegisters(o, address);
    ThreeSteps(Early(o, address), n, Restart(0), Handle, Handle);
    IncreaseKeepsIntake(n.d, (o.pid, 0), CreditOf(o));
  }
}
