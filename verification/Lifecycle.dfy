/**
  The life of one event in an honest node's store: its signature cell only moves
  from nothing to partials to the full signature, and the event itself is always
  in exactly one of the pending queue, the signed queue, or expired.
 */
module Lifecycle {
  import opened Bytes
  import opened EventCodec
  import opened EventStore
  import opened SigningNetwork
  import opened Agreement

  datatype Phase = Nothing | Collecting | Complete {
    function Rank(): nat {
      match this case Nothing => 0 case Collecting => 1 case Complete => 2
    }
  }

  function PhaseOf(s: Store, k: Key): Phase {
    if k !in s.cells then Nothing else if s.Full(k) then Complete else Collecting
  }

  /** What a store may become: admissions and entries accumulate, cells advance, full cells are final. */
  ghost predicate Advances(s: Store, s': Store) {
    && s.entered <= s'.entered
    && (forall k :: k in s.admitted ==> k in s'.admitted && s'.admitted[k] == s.admitted[k])
    && (forall k :: k in s.cells ==> k in s'.cells && (s.Full(k) ==> s'.cells[k] == s.cells[k]))
  }

  lemma ReceivedAdvances(sc: Scheme, signed: Signatures, s: Store, e: Event, sig: bytes)
    ensures Advances(s, Received(sc, signed, s, e, sig))
  {
  }

  // ---------- what needs no assumption on who can forge what ----------

  /** Cells are full signatures or non-empty lists of 66-byte partials. */
  ghost predicate Shaped(s: Store) {
    forall k :: k in s.cells ==> s.Full(k) || (|s.cells[k]| % PARTIAL_SIZE == 0 && |s.cells[k]| >= PARTIAL_SIZE)
  }

  ghost predicate Orderly(s: Store) {
    AdmissionsOk(s) && EnteredOk(s) && Shaped(s)
  }

  lemma WriteSignedOrderly(s: Store, e: Event)
    requires Orderly(s) && |e.signature| == FULL_SIZE
    ensures Orderly(WriteSigned(s, e))
  {
    if !s.Full(KeyOf(e)) {
      WriteSignedEntered(s, e);
      assert forall k :: k != KeyOf(e) ==> WriteSigned(s, e).Full(k) == s.Full(k);
    }
  }

  lemma WritePartialsOrderly(s: Store, k: Key, ps: seq<bytes>)
    requires Orderly(s) && AllPartials(ps) && ps != []
    ensures Orderly(WritePartials(s, k, ps))
  {
    if !s.Full(k) {
      JoinLength(ps);
      assert forall x :: WritePartials(s, k, ps).Full(x) == s.Full(x);
    }
  }

  lemma AppendOrderly(sc: Scheme, s: Store, e: Event, p: bytes)
    requires sc.Sized() && Orderly(s) && |p| == PARTIAL_SIZE
    ensures Orderly(Append(sc, s, e, p))
  {
    hide Orderly, WriteSigned, WritePartials;
    var stored := Partials(s, KeyOf(e));
    var kept := KeepValid(sc, Message(e), stored);
    forall i | 0 <= i < |kept| ensures |kept[i]| == PARTIAL_SIZE {
      assert kept[i] in stored;
    }
    if !s.Full(KeyOf(e)) && p !in kept {
      if |kept| + 1 < sc.threshold {
        WritePartialsOrderly(s, KeyOf(e), kept + [p]);
      } else {
        WriteSignedOrderly(s, e.(signature := sc.full(Message(e))));
      }
    }
  }

  lemma ReceivedOrderly(sc: Scheme, signed: Signatures, s: Store, e: Event, sig: bytes)
    requires sc.Sized() && Orderly(s)
    ensures Orderly(Received(sc, signed, s, e, sig))
  {
    hide Orderly, WriteSigned, Append, Encodable, Quorum;
    if |sig| == FULL_SIZE {
      WriteSignedOrderly(s, e.(signature := sig));
    } else if KnownPartial(sc, signed, Message(e), sig) {
      AppendOrderly(sc, s, e, sig);
    }
  }

  lemma AdmitOrderly(s: Store, e: Event, id: string)
    requires Orderly(s) && CanAdmit(s, e, id) && e.signature == []
    ensures Orderly(Admit(s, e, id)) && KeyOf(e) !in s.admitted
  {
    assert forall k :: Admit(s, e, id).Full(k) == s.Full(k);
  }

  lemma SameCellsOrderly(s: Store, s': Store)
    requires Orderly(s) && s'.cells == s.cells && s'.admitted == s.admitted && s'.entered == s.entered && s'.pending == s.pending
    requires forall p :: p in s.nonces ==> p in s'.nonces && s'.nonces[p] == s.nonces[p]
    ensures Orderly(s')
  {
    assert forall k :: s'.Full(k) == s.Full(k);
  }

  lemma NextOrderly(c: Config, net: Net, step: Step, i: nat)
    requires c.sc.Sized() && i < |net.stores| && Orderly(net.stores[i])
    ensures Orderly(Next(c, net, step).stores[i]) && Advances(net.stores[i], Next(c, net, step).stores[i])
  {
    hide Orderly, Received, Encodable, Encoded;
    var s := net.stores[i];
    match step
    case Receive(j, e, sig) =>
      if j == i {
        ReceivedOrderly(c.sc, net.signed, s, e, sig);
        ReceivedAdvances(c.sc, net.signed, s, e, sig);
      }
    case AdmitEvent(j, e, id) =>
      if j == i && e.signature == [] && CanAdmit(s, e, id) {
        AdmitOrderly(s, e, id);
      }
    case AddProcess(j, pid) =>
      SameCellsOrderly(s, Next(c, net, step).stores[i]);
    case ExpireSigned(j, events) =>
      SameCellsOrderly(s, Next(c, net, step).stores[i]);
    case _ =>
  }

  lemma {:induction false} RunOrderly(c: Config, steps: seq<Step>, i: nat)
    requires c.sc.Sized() && i < c.sc.size
    ensures Orderly(Run(c, steps).stores[i])
  {
    if steps != [] {
      hide Orderly, Next, Advances;
      RunOrderly(c, steps[..|steps| - 1], i);
      NextOrderly(c, Run(c, steps[..|steps| - 1]), steps[|steps| - 1], i);
    }
  }

  lemma {:induction false} RunAdvances(c: Config, steps: seq<Step>, more: seq<Step>, i: nat)
    requires c.sc.Sized() && i < c.sc.size
    ensures Advances(Run(c, steps).stores[i], Run(c, steps + more).stores[i])
  {
    hide Orderly, Next;
    if more == [] {
      assert steps + more == steps;
    } else {
      var front, last := more[..|more| - 1], more[|more| - 1];
      RunAdvances(c, steps, front, i);
      RunOrderly(c, steps + front, i);
      NextOrderly(c, Run(c, steps + front), last, i);
      assert steps + more == steps + front + [last];
      RunStep(c, steps + front, last);
    }
  }

  /**
    In every member's store, between any two points of any run: the phase of every
    nonce only rises, a full signature never changes, and a cell is never anything but
    a full signature or a non-empty list of 66-byte partials that reads back exactly.
   */
  lemma CellsOnlyAdvance(c: Config, steps: seq<Step>, more: seq<Step>, i: nat, k: Key)
    requires c.sc.Sized() && i < c.sc.size
    ensures var s, s' := Run(c, steps).stores[i], Run(c, steps + more).stores[i];
      && PhaseOf(s, k).Rank() <= PhaseOf(s', k).Rank()
      && (PhaseOf(s, k).Complete? ==> s'.cells[k] == s.cells[k])
      && (PhaseOf(s, k).Collecting? ==> Partials(s, k) != [] && s.cells[k] == Join(Partials(s, k)))
  {
    RunAdvances(c, steps, more, i);
    RunOrderly(c, steps, i);
    var s := Run(c, steps).stores[i];
    if PhaseOf(s, k).Collecting? {
      JoinChunks(s.cells[k]);
    }
  }

  lemma {:induction false} JoinChunks(val: bytes)
    requires |val| % PARTIAL_SIZE == 0
    ensures Join(Chunks(val)) == val
  {
    if val != [] {
      var n := |val| / PARTIAL_SIZE;
      var front := val[..(n - 1) * PARTIAL_SIZE];
      JoinChunks(front);
      forall j | 0 <= j < n - 1 ensures Chunks(val)[j] == Chunks(front)[j] {
        assert front[j * PARTIAL_SIZE..(j + 1) * PARTIAL_SIZE] == val[j * PARTIAL_SIZE..(j + 1) * PARTIAL_SIZE];
      }
      assert Chunks(val)[..n - 1] == Chunks(front);
      assert Chunks(val)[n - 1] == val[(n - 1) * PARTIAL_SIZE..];
      assert val == front + val[(n - 1) * PARTIAL_SIZE..];
    }
  }

  /** No key enters the signed queue of any member twice, ever. */
  lemma EntersOnce(c: Config, steps: seq<Step>, i: nat)
    requires c.sc.Sized() && i < c.sc.size
    ensures NoDuplicates(Run(c, steps).stores[i].entered)
    ensures forall k :: k in Run(c, steps).stores[i].entered <==> PhaseOf(Run(c, steps).stores[i], k).Complete?
  {
    RunOrderly(c, steps, i);
  }

  // ---------- the signed queue ----------

  /** The keys of signed events that a step expires at a member */
  function ExpiredBy(net: Net, step: Step, i: nat): set<Key>
    requires i < |net.stores|
  {
    if step.ExpireSigned? && step.i == i then set e | e in step.events && net.stores[i].Full(KeyOf(e)) :: KeyOf(e) else {}
  }

  function ExpiredKeys(c: Config, steps: seq<Step>, i: nat): set<Key>
    requires i < c.sc.size
  {
    if steps == [] then {}
    else ExpiredKeys(c, steps[..|steps| - 1], i) + ExpiredBy(Run(c, steps[..|steps| - 1]), steps[|steps| - 1], i)
  }

  /** The queue holds the signed events that are not gone, each under its key and with its signature. */
  ghost predicate QueueShape(s: Store, gone: set<Key>) {
    && (forall k :: k in s.signedQueue <==> s.Full(k) && k !in gone)
    && (forall k :: k in s.signedQueue ==> KeyOf(s.signedQueue[k]) == k && s.signedQueue[k].signature == s.cells[k])
    && (forall k :: k in gone ==> s.Full(k))
  }

  lemma WriteSignedQueued(s: Store, e: Event, gone: set<Key>)
    requires QueueShape(s, gone) && |e.signature| == FULL_SIZE
    ensures QueueShape(WriteSigned(s, e), gone)
  {
    var s' := WriteSigned(s, e);
    if !s.Full(KeyOf(e)) {
      assert forall k :: s'.Full(k) <==> s.Full(k) || k == KeyOf(e);
    }
  }

  lemma WritePartialsQueued(s: Store, k: Key, ps: seq<bytes>, gone: set<Key>)
    requires QueueShape(s, gone) && AllPartials(ps)
    ensures QueueShape(WritePartials(s, k, ps), gone)
  {
    if !s.Full(k) {
      JoinLength(ps);
      assert forall x :: WritePartials(s, k, ps).Full(x) == s.Full(x);
    }
  }

  lemma ReceivedQueued(sc: Scheme, signed: Signatures, s: Store, e: Event, sig: bytes, gone: set<Key>)
    requires sc.Sized() && QueueShape(s, gone)
    ensures QueueShape(Received(sc, signed, s, e, sig), gone)
  {
    hide QueueShape, WriteSigned, WritePartials, Encodable, Quorum, Encoded;
    var stored := Partials(s, KeyOf(e));
    var kept := KeepValid(sc, Message(e), stored);
    forall i | 0 <= i < |kept| ensures |kept[i]| == PARTIAL_SIZE {
      assert kept[i] in stored;
    }
    if |sig| == FULL_SIZE {
      WriteSignedQueued(s, e.(signature := sig), gone);
    } else if KnownPartial(sc, signed, Message(e), sig) {
      WritePartialsQueued(s, KeyOf(e), kept + [sig], gone);
      WriteSignedQueued(s, e.(signature := sc.full(Message(e))), gone);
    }
  }

  lemma ExpireQueued(s: Store, events: seq<Event>, gone: set<Key>)
    requires QueueShape(s, gone)
    ensures QueueShape(Expire(s, events), gone + set e | e in events && s.Full(KeyOf(e)) :: KeyOf(e))
  {
    var s', gone' := Expire(s, events), gone + set e | e in events && s.Full(KeyOf(e)) :: KeyOf(e);
    forall k ensures k in s'.signedQueue <==> s'.Full(k) && k !in gone' {
      assert k in Keys(events) <==> exists e :: e in events && KeyOf(e) == k;
      assert s'.Full(k) == s.Full(k);
    }
  }

  lemma SameQueued(s: Store, s': Store, gone: set<Key>)
    requires QueueShape(s, gone) && s'.cells == s.cells && s'.signedQueue == s.signedQueue
    ensures QueueShape(s', gone)
  {
    assert forall k :: s'.Full(k) == s.Full(k);
  }

  /** What a step does to a member's signature cells and signed queue */
  lemma NextStore(c: Config, net: Net, step: Step, i: nat)
    requires i < |net.stores|
    ensures var s, s' := net.stores[i], Next(c, net, step).stores[i];
      if step.Receive? && step.i == i then s' == Received(c.sc, net.signed, s, step.e, step.sig)
      else if step.ExpireSigned? && step.i == i then s' == Expire(s, step.events)
      else s'.cells == s.cells && s'.signedQueue == s.signedQueue
  {
    hide Received, Expire, Encodable, Encoded;
  }

  lemma NextQueued(c: Config, net: Net, step: Step, i: nat, gone: set<Key>)
    requires c.sc.Sized() && i < |net.stores| && QueueShape(net.stores[i], gone)
    ensures QueueShape(Next(c, net, step).stores[i], gone + ExpiredBy(net, step, i))
  {
    hide QueueShape, Received, Expire, Next;
    NextStore(c, net, step, i);
    if step.Receive? && step.i == i {
      ReceivedQueued(c.sc, net.signed, net.stores[i], step.e, step.sig, gone);
      assert gone + ExpiredBy(net, step, i) == gone;
    } else if step.ExpireSigned? && step.i == i {
      ExpireQueued(net.stores[i], step.events, gone);
    } else {
      assert gone + ExpiredBy(net, step, i) == gone;
      SameQueued(net.stores[i], Next(c, net, step).stores[i], gone);
    }
  }

  lemma {:induction false} RunQueued(c: Config, steps: seq<Step>, i: nat)
    requires c.sc.Sized() && i < c.sc.size
    ensures QueueShape(Run(c, steps).stores[i], ExpiredKeys(c, steps, i))
  {
    if steps != [] {
      hide QueueShape, ExpiredBy, Next;
      RunQueued(c, steps[..|steps| - 1], i);
      NextQueued(c, Run(c, steps[..|steps| - 1]), steps[|steps| - 1], i, ExpiredKeys(c, steps[..|steps| - 1], i));
    }
  }

  /** In every member's store: an event is in the signed queue exactly from when its cell is full until it is expired, with that signature. */
  lemma QueueExactly(c: Config, steps: seq<Step>, i: nat, k: Key)
    requires c.sc.Sized() && i < c.sc.size
    ensures var s := Run(c, steps).stores[i];
      && (k in s.signedQueue <==> PhaseOf(s, k).Complete? && k !in ExpiredKeys(c, steps, i))
      && (k in s.signedQueue ==> KeyOf(s.signedQueue[k]) == k && s.signedQueue[k].signature == s.cells[k])
      && (k in ExpiredKeys(c, steps, i) ==> PhaseOf(s, k).Complete?)
  {
    hide Run, ExpiredKeys;
    RunQueued(c, steps, i);
  }

  // ---------- where an event is ----------

  /** Honest nodes were given the same outputs in the same order, so they gave each nonce the same content. */
  ghost predicate Consistent(c: Config, net: Net) {
    forall i: nat, j: nat, k ::
      && i < |net.stores| && j < |net.stores| && Honest(c, i) && Honest(c, j)
      && k in net.stores[i].admitted && k in net.stores[j].admitted
      ==> net.stores[i].admitted[k] == net.stores[j].admitted[k]
  }

  ghost predicate Placed(s: Store) {
    forall k :: k in s.admitted ==> (TimedKeyOf(s.admitted[k]) in s.pending <==> !s.Full(k))
  }

  lemma WriteSignedPlaced(s: Store, e: Event)
    requires AdmissionsOk(s) && Placed(s) && |e.signature| == FULL_SIZE
    requires KeyOf(e) in s.admitted ==> s.admitted[KeyOf(e)] == Unsigned(e)
    ensures Placed(WriteSigned(s, e))
  {
    var s' := WriteSigned(s, e);
    forall k | k in s'.admitted
      ensures TimedKeyOf(s'.admitted[k]) in s'.pending <==> !s'.Full(k)
    {
      assert KeyOf(s.admitted[k]) == k;
      if !s.Full(KeyOf(e)) && k != KeyOf(e) {
        assert s'.Full(k) == s.Full(k);
      }
    }
  }

  lemma AdmitPlaced(s: Store, e: Event, id: string)
    requires AdmissionsOk(s) && Placed(s) && CanAdmit(s, e, id)
    ensures Placed(Admit(s, e, id))
  {
    var s' := Admit(s, e, id);
    assert KeyOf(e) !in s.admitted;
    assert TimedKeyOf(e) !in s.pending;
    forall k | k in s'.admitted
      ensures TimedKeyOf(s'.admitted[k]) in s'.pending <==> !s'.Full(k)
    {
      assert s'.Full(k) == s.Full(k);
      if k != KeyOf(e) {
        assert KeyOf(s.admitted[k]) == k;
      }
    }
  }

  /** A certified event is the local event of every honest node that has one for that nonce. */
  lemma CertifiedIsLocal(c: Config, net: Net, e: Event, cell: bytes, i: nat)
    requires |c.faulty| < c.sc.threshold
    requires Inv(c, net) && Consistent(c, net) && Honest(c, i) && Certifies(c.sc, net.signed, e, cell)
    requires KeyOf(e) in net.stores[i].admitted
    ensures net.stores[i].admitted[KeyOf(e)] == Unsigned(e)
  {
    var signers := Signers(c.sc, net.signed, Message(e));
    if signers <= c.faulty {
      SubsetSize(signers, c.faulty);
      assert false;
    }
    var j: nat :| j in signers && j !in c.faulty;
    assert Honest(c, j);
    var k := HonestSignsOnce(c, net, j, e);
  }

  lemma ReceivedPlaced(c: Config, messages: set<bytes>, net: Net, i: nat, e: Event, sig: bytes)
    requires c.sc.Ideal(messages) && SignedIn(c.sc, net.signed, messages) && Message(e) in messages
    requires |c.faulty| < c.sc.threshold
    requires Inv(c, net) && Consistent(c, net) && Honest(c, i) && Placed(net.stores[i])
    ensures Placed(Received(c.sc, net.signed, net.stores[i], e, sig))
  {
    var s := net.stores[i];
    var s', e' := Received(c.sc, net.signed, s, e, sig), e.(signature := c.sc.full(Message(e)));
    ReceivedCases(c.sc, messages, net.signed, s, e, sig);
    if s' == WriteSigned(s, e') && Certifies(c.sc, net.signed, e', e'.signature) {
      if KeyOf(e) in s.admitted {
        CertifiedIsLocal(c, net, e', e'.signature, i);
      }
      WriteSignedPlaced(s, e');
    } else {
      assert s' == s.(cells := s'.cells);
      forall k ensures s'.Full(k) == s.Full(k) {
      }
    }
  }

  lemma NextPlaced(c: Config, messages: set<bytes>, net: Net, step: Step, i: nat)
    requires c.sc.Ideal(messages) && SignedIn(c.sc, net.signed, messages) && Mentions(step) <= messages
    requires |c.faulty| < c.sc.threshold
    requires Inv(c, net) && Consistent(c, net) && Honest(c, i) && Placed(net.stores[i])
    ensures Placed(Next(c, net, step).stores[i])
  {
    var s, s' := net.stores[i], Next(c, net, step).stores[i];
    match step
    case Receive(j, e, sig) =>
      if j == i {
        ReceivedPlaced(c, messages, net, i, e, sig);
      }
    case AdmitEvent(j, e, id) =>
      if j == i && e.signature == [] && CanAdmit(s, e, id) {
        assert AdmissionsOk(s);
        AdmitPlaced(s, e, id);
      }
    case _ =>
      assert forall k :: s'.Full(k) == s.Full(k);
  }

  lemma {:induction false} RunPlaced(c: Config, steps: seq<Step>, i: nat)
    requires ValidRun(c, steps) && |c.faulty| < c.sc.threshold
    requires Consistent(c, Run(c, steps)) && Honest(c, i)
    ensures Placed(Run(c, steps).stores[i])
  {
    if steps != [] {
      var front, last := steps[..|steps| - 1], steps[|steps| - 1];
      assert steps == front + [last];
      forall j: nat | Honest(c, j)
        ensures Advances(Run(c, front).stores[j], Run(c, steps).stores[j])
      {
        RunAdvances(c, front, [last], j);
      }
      assert Consistent(c, Run(c, front));
      RunPlaced(c, front, i);
      RunKeepsInv(c, front);
      SignedMentioned(c, front);
      NextPlaced(c, Mentioned(steps), Run(c, front), last, i);
    }
  }

  ghost predicate IsPending(s: Store, k: Key)
    requires k in s.admitted
  {
    TimedKeyOf(s.admitted[k]) in s.pending
  }

  ghost predicate IsQueued(s: Store, k: Key) {
    k in s.signedQueue
  }

  /** Every local event of an honest node is in exactly one of three places, in every reachable state: pending, queued, or expired. */
  lemma ExactlyOnePlace(c: Config, steps: seq<Step>, i: nat, k: Key)
    requires ValidRun(c, steps) && |c.faulty| < c.sc.threshold
    requires Consistent(c, Run(c, steps)) && Honest(c, i) && k in Run(c, steps).stores[i].admitted
    ensures var s := Run(c, steps).stores[i];
      var expired := k in ExpiredKeys(c, steps, i);
      && (IsPending(s, k) || IsQueued(s, k) || expired)
      && !(IsPending(s, k) && IsQueued(s, k)) && !(IsPending(s, k) && expired) && !(IsQueued(s, k) && expired)
  {
    hide Run, ExpiredKeys, Consistent;
    RunPlaced(c, steps, i);
    QueueExactly(c, steps, i, k);
  }
}
