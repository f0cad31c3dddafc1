/**
  When an event is recovered: a member's cell becomes the full signature exactly when
  it has received partials from a threshold of members, or the full signature itself.
 */
module Recovery {
  import opened Bytes
  import opened EventCodec
  import opened EventStore
  import opened SigningNetwork
  import opened Agreement
  import opened Lifecycle

  /** A message the member takes in: of a process it knows, with this very content. */
  predicate Delivers(c: Config, net: Net, step: Step, i: nat, e: Event) {
    && step.Receive? && step.i == i && i < |net.stores|
    && Unsigned(step.e) == Unsigned(e) && e.process in net.stores[i].nonces
  }

  /** The partials on an event's message that a member received and that members did make. */
  function Heard(c: Config, steps: seq<Step>, i: nat, e: Event): set<bytes> {
    if steps == [] then {}
    else
      var front, last := steps[..|steps| - 1], steps[|steps| - 1];
      var net := Run(c, front);
      Heard(c, front, i, e) +
      if Delivers(c, net, last, i, e) && KnownPartial(c.sc, net.signed, Message(e), last.sig) then {last.sig} else {}
  }

  /** It received the full signature, which a threshold of members had made. */
  predicate HeardFull(c: Config, steps: seq<Step>, i: nat, e: Event) {
    steps != [] &&
      var front, last := steps[..|steps| - 1], steps[|steps| - 1];
      var net := Run(c, front);
      || HeardFull(c, front, i, e)
      || (Delivers(c, net, last, i, e) && last.sig == c.sc.full(Message(e)) && Quorum(c.sc, net.signed, Message(e)))
  }

  /** No message the member received carries another content for that nonce. */
  ghost predicate Undisputed(steps: seq<Step>, i: nat, e: Event) {
    forall j :: 0 <= j < |steps| && steps[j].Receive? && steps[j].i == i && KeyOf(steps[j].e) == KeyOf(e) ==> Unsigned(steps[j].e) == Unsigned(e)
  }

  /** The cell of an event after some partials, and perhaps the full signature, were heard. */
  ghost predicate CellFollows(sc: Scheme, s: Store, e: Event, heard: set<bytes>, full: bool) {
    var k := KeyOf(e);
    && (forall p :: p in heard ==> sc.VerifyPartial(Message(e), p) && |p| == PARTIAL_SIZE)
    && if full || |heard| >= sc.threshold then s.Full(k) && s.cells[k] == sc.full(Message(e))
       else !s.Full(k) && NoDuplicates(Partials(s, k)) && forall p :: p in Partials(s, k) <==> p in heard
  }

  lemma {:induction false} KeepAll(sc: Scheme, msg: bytes, ps: seq<bytes>)
    requires forall p :: p in ps ==> sc.VerifyPartial(msg, p)
    ensures KeepValid(sc, msg, ps) == ps
  {
    if ps != [] {
      KeepAll(sc, msg, ps[..|ps| - 1]);
      assert ps == ps[..|ps| - 1] + [ps[|ps| - 1]];
    }
  }

  lemma {:induction false} SizeOfList(ps: seq<bytes>, heard: set<bytes>)
    requires NoDuplicates(ps) && forall p :: p in ps <==> p in heard
    ensures |ps| == |heard|
  {
    if ps == [] {
      assert heard == {};
    } else {
      var front, last := ps[..|ps| - 1], ps[|ps| - 1];
      assert ps == front + [last];
      SizeOfList(front, heard - {last});
    }
  }

  lemma StoredFollows(sc: Scheme, s: Store, e: Event, all: seq<bytes>, heard: set<bytes>)
    requires !s.Full(KeyOf(e)) && NoDuplicates(all) && AllPartials(all) && (forall p :: p in all <==> p in heard) && |heard| < sc.threshold
    requires forall p :: p in heard ==> sc.VerifyPartial(Message(e), p)
    ensures CellFollows(sc, WritePartials(s, KeyOf(e), all), e, heard, false)
  {
    hide Encoded, NoDuplicates;
    ChunksJoin(all);
    JoinLength(all);
    var s' := WritePartials(s, KeyOf(e), all);
    assert Partials(s', KeyOf(e)) == all;
    forall p | p in heard ensures |p| == PARTIAL_SIZE {
      assert p in all;
    }
  }

  lemma RecoveredFollows(sc: Scheme, s: Store, e: Event, sig: bytes, heard: set<bytes>, full: bool)
    requires sc.Sized() && !s.Full(KeyOf(e)) && sig == sc.full(Message(e)) && (full || |heard| >= sc.threshold)
    requires forall p :: p in heard ==> sc.VerifyPartial(Message(e), p) && |p| == PARTIAL_SIZE
    ensures CellFollows(sc, WriteSigned(s, e.(signature := sig)), e, heard, full)
  {
    hide Encoded;
  }

  /** Adding a partial below the threshold. */
  lemma AppendFollows(sc: Scheme, s: Store, e: Event, p: bytes, heard: set<bytes>)
    requires sc.Sized() && sc.threshold >= 1 && CellFollows(sc, s, e, heard, false) && |heard| < sc.threshold
    requires sc.VerifyPartial(Message(e), p) && |p| == PARTIAL_SIZE
    ensures CellFollows(sc, Append(sc, s, e, p), e, heard + {p}, false)
  {
    var ps := Partials(s, KeyOf(e));
    BelowThreshold(sc, s, e, heard);
    hide Message, WritePartials, WriteSigned, CellFollows, KeepValid;
    if p in heard {
      assert heard + {p} == heard;
    } else {
      Extended(ps, heard, p);
      if |ps| + 1 < sc.threshold {
        StoredFollows(sc, s, e, ps + [p], heard + {p});
      } else {
        RecoveredFollows(sc, s, e, sc.full(Message(e)), heard + {p}, false);
      }
    }
  }

  /** Below the threshold the stored partials are those heard, and all verify. */
  lemma BelowThreshold(sc: Scheme, s: Store, e: Event, heard: set<bytes>)
    requires CellFollows(sc, s, e, heard, false) && |heard| < sc.threshold
    ensures var ps := Partials(s, KeyOf(e));
      && !s.Full(KeyOf(e)) && KeepValid(sc, Message(e), ps) == ps && NoDuplicates(ps) && |ps| == |heard|
      && (forall p :: p in ps <==> p in heard) && AllPartials(ps)
      && (forall p :: p in heard ==> sc.VerifyPartial(Message(e), p) && |p| == PARTIAL_SIZE)
  {
    hide Encoded;
    KeepAll(sc, Message(e), Partials(s, KeyOf(e)));
    SizeOfList(Partials(s, KeyOf(e)), heard);
  }

  lemma Extended(ps: seq<bytes>, heard: set<bytes>, p: bytes)
    requires NoDuplicates(ps) && AllPartials(ps) && (forall x :: x in ps <==> x in heard) && p !in heard && |p| == PARTIAL_SIZE
    ensures var all, more := ps + [p], heard + {p};
      NoDuplicates(all) && AllPartials(all) && (forall x :: x in all <==> x in more) && |more| == |ps| + 1
  {
    SizeOfList(ps, heard);
  }

  lemma SameCell(sc: Scheme, s: Store, s': Store, e: Event, heard: set<bytes>, full: bool)
    requires CellFollows(sc, s, e, heard, full) && (KeyOf(e) in s.cells <==> KeyOf(e) in s'.cells)
    requires KeyOf(e) in s.cells ==> s'.cells[KeyOf(e)] == s.cells[KeyOf(e)]
    ensures CellFollows(sc, s', e, heard, full)
  {
    hide Encoded;
    assert Partials(s', KeyOf(e)) == Partials(s, KeyOf(e));
  }

  /** More partials do not change a full cell. */
  lemma FullFollows(sc: Scheme, s: Store, e: Event, heard: set<bytes>, more: set<bytes>, full: bool, full': bool)
    requires CellFollows(sc, s, e, heard, full) && s.Full(KeyOf(e)) && heard <= more && (full ==> full')
    requires forall p :: p in more ==> sc.VerifyPartial(Message(e), p) && |p| == PARTIAL_SIZE
    ensures CellFollows(sc, s, e, more, full')
  {
    hide Encoded;
    SubsetSize(heard, more);
  }

  /** Messages of other nonces leave the cell alone. */
  lemma OtherKey(sc: Scheme, signed: Signatures, s: Store, x: Event, sig: bytes, k: Key)
    requires KeyOf(x) != k
    ensures var s' := Received(sc, signed, s, x, sig); (k in s'.cells <==> k in s.cells) && (k in s.cells ==> s'.cells[k] == s.cells[k])
  {
    hide Encoded, Encodable, KeepValid, Join, Quorum;
  }

  lemma KnownVerifies(sc: Scheme, signed: Signatures, msg: bytes, p: bytes)
    requires sc.Sized() && KnownPartial(sc, signed, msg, p)
    ensures sc.VerifyPartial(msg, p) && |p| == PARTIAL_SIZE
  {
  }

  /** A message with the event's content, from a process the member knows. */
  lemma DeliveryFollows(sc: Scheme, signed: Signatures, s: Store, e: Event, x: Event, sig: bytes, heard: set<bytes>, full: bool)
    requires sc.Sized() && sc.threshold >= 1 && Encodable(Unsigned(e)) && Unsigned(x) == Unsigned(e) && e.process in s.nonces
    requires CellFollows(sc, s, e, heard, full)
    ensures var heard' := heard + if KnownPartial(sc, signed, Message(e), sig) then {sig} else {};
      var full' := full || (sig == sc.full(Message(e)) && Quorum(sc, signed, Message(e)));
      CellFollows(sc, Received(sc, signed, s, x, sig), e, heard', full')
  {
    var msg := Message(e);
    assert Message(x) == msg && KeyOf(x) == KeyOf(e);
    var known := KnownPartial(sc, signed, msg, sig);
    var whole := sig == sc.full(msg) && Quorum(sc, signed, msg);
    if known {
      KnownVerifies(sc, signed, msg, sig);
    }
    assert !(known && whole);
    SameContentSigned(x, e, sc.full(msg));
    SameAppend(sc, s, x, e, sig);
    var heard' := heard + if known then {sig} else {};
    HeardVerifies(sc, s, e, heard, full);
    hide Encoded, CellFollows, Append, WriteSigned, Quorum, KnownPartial;
    if s.Full(KeyOf(e)) {
      FullFollows(sc, s, e, heard, heard', full, full || whole);
      WriteToFull(s, x.(signature := sig));
    } else if whole {
      assert heard' == heard;
      RecoveredFollows(sc, s, e, sig, heard, true);
    } else if known {
      NotFullMeansBelow(sc, s, e, heard, full);
      AppendFollows(sc, s, e, sig, heard);
    } else {
      assert heard' == heard;
    }
  }

  lemma SameContentSigned(x: Event, e: Event, sig: bytes)
    requires Unsigned(x) == Unsigned(e)
    ensures x.(signature := sig) == e.(signature := sig)
  {
  }

  lemma SameAppend(sc: Scheme, s: Store, x: Event, e: Event, p: bytes)
    requires Unsigned(x) == Unsigned(e)
    ensures Append(sc, s, x, p) == Append(sc, s, e, p)
  {
    hide Encoded;
    SameContentSigned(x, e, sc.full(Message(e)));
  }

  lemma WriteToFull(s: Store, e: Event)
    ensures s.Full(KeyOf(e)) ==> WriteSigned(s, e) == s
  {
  }

  lemma HeardVerifies(sc: Scheme, s: Store, e: Event, heard: set<bytes>, full: bool)
    requires CellFollows(sc, s, e, heard, full)
    ensures forall p :: p in heard ==> sc.VerifyPartial(Message(e), p) && |p| == PARTIAL_SIZE
  {
    hide Encoded;
  }

  lemma NotFullMeansBelow(sc: Scheme, s: Store, e: Event, heard: set<bytes>, full: bool)
    requires CellFollows(sc, s, e, heard, full) && !s.Full(KeyOf(e))
    ensures !full && |heard| < sc.threshold
  {
    hide Encoded;
  }

  // ---------- whole runs ----------

  lemma NextFollows(c: Config, net: Net, step: Step, i: nat, e: Event, heard: set<bytes>, full: bool)
    requires c.sc.Sized() && c.sc.threshold >= 1 && i < |net.stores| && Encodable(Unsigned(e))
    requires step.Receive? && step.i == i && KeyOf(step.e) == KeyOf(e) ==> Unsigned(step.e) == Unsigned(e)
    requires CellFollows(c.sc, net.stores[i], e, heard, full)
    ensures var delivers := Delivers(c, net, step, i, e);
      var heard' := heard + if delivers && KnownPartial(c.sc, net.signed, Message(e), step.sig) then {step.sig} else {};
      var full' := full || (delivers && step.sig == c.sc.full(Message(e)) && Quorum(c.sc, net.signed, Message(e)));
      CellFollows(c.sc, Next(c, net, step).stores[i], e, heard', full')
  {
    hide CellFollows, Next, Encodable, Encoded, KnownPartial, Quorum;
    var s, s' := net.stores[i], Next(c, net, step).stores[i];
    NextStore(c, net, step, i);
    assert heard + {} == heard;
    if Delivers(c, net, step, i, e) {
      DeliveryFollows(c.sc, net.signed, s, e, step.e, step.sig, heard, full);
    } else if step.Receive? && step.i == i && KeyOf(step.e) != KeyOf(e) {
      OtherKey(c.sc, net.signed, s, step.e, step.sig, KeyOf(e));
      SameCell(c.sc, s, s', e, heard, full);
    } else {
      SameCell(c.sc, s, s', e, heard, full);
    }
  }

  lemma {:induction false} RunFollows(c: Config, steps: seq<Step>, i: nat, e: Event)
    requires c.sc.Sized() && c.sc.threshold >= 1 && i < c.sc.size && Encodable(Unsigned(e)) && Undisputed(steps, i, e)
    ensures CellFollows(c.sc, Run(c, steps).stores[i], e, Heard(c, steps, i, e), HeardFull(c, steps, i, e))
  {
    hide Encodable, Encoded, Next, Delivers, KnownPartial, Quorum;
    if steps != [] {
      hide CellFollows;
      var front, last := steps[..|steps| - 1], steps[|steps| - 1];
      assert forall j :: 0 <= j < |front| ==> front[j] == steps[j];
      RunFollows(c, front, i, e);
      NextFollows(c, Run(c, front), last, i, e, Heard(c, front, i, e), HeardFull(c, front, i, e));
    }
  }

  /** What is queued under the event's key has its content. */
  ghost predicate ContentOk(s: Store, e: Event) {
    KeyOf(e) in s.signedQueue ==> Unsigned(s.signedQueue[KeyOf(e)]) == Unsigned(e)
  }

  lemma ReceivedContent(sc: Scheme, signed: Signatures, s: Store, x: Event, sig: bytes, e: Event)
    requires ContentOk(s, e) && (KeyOf(x) == KeyOf(e) ==> Unsigned(x) == Unsigned(e))
    ensures ContentOk(Received(sc, signed, s, x, sig), e)
  {
    hide Encoded, Encodable, KeepValid, Join, Quorum, KnownPartial;
  }

  lemma {:induction false} RunContent(c: Config, steps: seq<Step>, i: nat, e: Event)
    requires i < c.sc.size && Undisputed(steps, i, e)
    ensures ContentOk(Run(c, steps).stores[i], e)
  {
    if steps != [] {
      hide Next, Received;
      var front, last := steps[..|steps| - 1], steps[|steps| - 1];
      assert forall j :: 0 <= j < |front| ==> front[j] == steps[j];
      RunContent(c, front, i, e);
      NextStore(c, Run(c, front), last, i);
      if last.Receive? && last.i == i {
        ReceivedContent(c.sc, Run(c, front).signed, Run(c, front).stores[i], last.e, last.sig, e);
      }
    }
  }

  // ---------- main results ----------

  /**
    In every run in which a member receives no other content for the nonce, and in
    whatever order messages come: its cell is the full signature exactly if it heard
    partials of a threshold of members or the full signature; until then it holds
    exactly the partials heard, each once. The signed event is queued until it expires.
   */
  lemma RecoveryExactly(c: Config, steps: seq<Step>, i: nat, e: Event)
    requires c.sc.Sized() && c.sc.threshold >= 1 && i < c.sc.size && Encodable(Unsigned(e)) && Undisputed(steps, i, e)
    ensures var s, k, heard := Run(c, steps).stores[i], KeyOf(e), Heard(c, steps, i, e);
      && (s.Full(k) <==> |heard| >= c.sc.threshold || HeardFull(c, steps, i, e))
      && (s.Full(k) ==> s.cells[k] == c.sc.full(Message(e)))
      && (!s.Full(k) ==> NoDuplicates(Partials(s, k)) && forall p :: p in Partials(s, k) <==> p in heard)
      && (s.Full(k) && k !in ExpiredKeys(c, steps, i) ==>
           k in s.signedQueue && s.signedQueue[k] == e.(signature := c.sc.full(Message(e))))
  {
    hide Run, Heard, HeardFull, Encodable, Encoded, ExpiredKeys, Undisputed;
    RunFollows(c, steps, i, e);
    RunContent(c, steps, i, e);
    QueueExactly(c, steps, i, KeyOf(e));
    var s := Run(c, steps).stores[i];
    if KeyOf(e) in s.signedQueue {
      SameContentSigned(s.signedQueue[KeyOf(e)], e, s.signedQueue[KeyOf(e)].signature);
    }
  }

  /** So partials of any threshold of members are enough, however many members stay silent. */
  lemma ThresholdRecovers(c: Config, steps: seq<Step>, i: nat, e: Event, members: set<nat>)
    requires c.sc.Ideal({Message(e)}) && i < c.sc.size && Encodable(Unsigned(e)) && Undisputed(steps, i, e)
    requires |members| >= c.sc.threshold
    requires forall j :: j in members ==> j < c.sc.size && c.sc.partial(j, Message(e)) in Heard(c, steps, i, e)
    ensures Run(c, steps).stores[i].Full(KeyOf(e)) && Run(c, steps).stores[i].cells[KeyOf(e)] == c.sc.full(Message(e))
  {
    hide Run, Heard, HeardFull, Encodable, Encoded, ExpiredKeys, Undisputed;
    DistinctPartials(c.sc, Message(e), members, Heard(c, steps, i, e));
    RecoveryExactly(c, steps, i, e);
  }

  lemma {:induction false} DistinctPartials(sc: Scheme, msg: bytes, members: set<nat>, heard: set<bytes>)
    requires sc.Ideal({msg}) && forall j :: j in members ==> j < sc.size && sc.partial(j, msg) in heard
    ensures |heard| >= |members|
    decreases |members|
  {
    if members != {} {
      var j :| j in members;
      var rest := members - {j};
      forall i | i in rest ensures sc.partial(i, msg) in heard - {sc.partial(j, msg)} {
      }
      DistinctPartials(sc, msg, rest, heard - {sc.partial(j, msg)});
    }
  }

  // ---------- admissions ----------

  /** Nonces are given out without gaps, and one identifier is used up for each. */
  ghost predicate Counted(s: Store) {
    && (forall pid: uuid, n: uint64 :: (pid, n) in s.admitted <==> pid in s.nonces && n < s.nonces[pid])
    && |s.identifiers| == |s.admitted|
  }

  lemma AdmitCounted(s: Store, e: Event, id: string)
    requires Counted(s) && CanAdmit(s, e, id)
    ensures Counted(Admit(s, e, id))
    ensures var s' := Admit(s, e, id);
      id in s'.identifiers && KeyOf(e) in s'.admitted && s'.admitted[KeyOf(e)] == e && s'.nonces == s.nonces[e.process := e.nonce + 1]
  {
    assert KeyOf(e) !in s.admitted;
    assert s.admitted[KeyOf(e) := e].Keys == s.admitted.Keys + {KeyOf(e)};
  }

  /** What a step does to a member's admissions */
  lemma NextAdmissions(c: Config, net: Net, step: Step, i: nat)
    requires i < |net.stores|
    ensures var s, s' := net.stores[i], Next(c, net, step).stores[i];
      if step.AdmitEvent? && step.i == i && step.e.signature == [] && CanAdmit(s, step.e, step.id) then s' == Admit(s, step.e, step.id)
      else if step.AddProcess? && step.i == i && step.pid !in s.nonces then
        s'.admitted == s.admitted && s'.identifiers == s.identifiers && s'.nonces == s.nonces[step.pid := 0]
      else s'.admitted == s.admitted && s'.identifiers == s.identifiers && s'.nonces == s.nonces
  {
    hide Admit, Encodable, Encoded, Quorum, KnownPartial, KeepValid, Join;
  }

  lemma {:induction false} RunCounted(c: Config, steps: seq<Step>, i: nat)
    requires i < c.sc.size
    ensures Counted(Run(c, steps).stores[i])
  {
    if steps != [] {
      hide Next, Admit;
      var net, last := Run(c, steps[..|steps| - 1]), steps[|steps| - 1];
      RunCounted(c, steps[..|steps| - 1], i);
      NextAdmissions(c, net, last, i);
      if last.AdmitEvent? && last.i == i && last.e.signature == [] && CanAdmit(net.stores[i], last.e, last.id) {
        AdmitCounted(net.stores[i], last.e, last.id);
      }
    }
  }

  /** In every run: gap-free nonces, one identifier each; and a new output of a registered process, with its next nonce, is admitted and uses up both. */
  lemma AdmissionExactly(c: Config, steps: seq<Step>, i: nat, e: Event, id: string)
    requires i < c.sc.size && e.signature == []
    ensures var s, s' := Run(c, steps).stores[i], Run(c, steps + [AdmitEvent(i, e, id)]).stores[i];
      && (forall pid: uuid, n: uint64 :: (pid, n) in s.admitted <==> pid in s.nonces && n < s.nonces[pid])
      && |s.identifiers| == |s.admitted|
      && var first := e.timestamp > 0 && id !in s.identifiers && e.process in s.nonces && s.nonces[e.process] == e.nonce;
         if first then
           && s'.admitted == s.admitted[KeyOf(e) := e] && s'.identifiers == s.identifiers + {id}
           && s'.nonces == s.nonces[e.process := e.nonce + 1]
           && (TimedKeyOf(e) in s'.pending <==> !s.Full(KeyOf(e)) || TimedKeyOf(e) in s.pending)
         else s' == s
  {
    RunCounted(c, steps, i);
    hide Next, Run;
    RunStep(c, steps, AdmitEvent(i, e, id));
    AdmitStep(c, Run(c, steps), i, e, id);
  }

  lemma AdmitStep(c: Config, net: Net, i: nat, e: Event, id: string)
    requires i < |net.stores| && e.signature == []
    ensures Next(c, net, AdmitEvent(i, e, id)).stores[i] == if CanAdmit(net.stores[i], e, id) then Admit(net.stores[i], e, id) else net.stores[i]
  {
    hide Admit;
  }
}
