/**
  The signing protocol as a whole: every member's store, the set of signatures
  that exist, and a faulty subset that may sign anything.

  A message may be lost, repeated, delayed or made up; the only limit is that a
  partial signature verifies just when its member made it, and a full signature
  just when a threshold of members signed the message.
 */
module SigningNetwork {
  import opened Bytes
  import opened EventCodec
  import opened EventStore

  type Signatures = set<(nat, bytes)>

  datatype Config = Config(sc: Scheme, faulty: set<nat>)

  datatype Net = Net(stores: seq<Store>, signed: Signatures)

  datatype Step =
    | AddProcess(i: nat, pid: uuid)
    | AdmitEvent(i: nat, e: Event, id: string)
    | Sign(i: nat, e: Event)
    | FaultySign(i: nat, msg: bytes)
    | Receive(i: nat, e: Event, sig: bytes)
    | ExpireSigned(i: nat, events: seq<Event>)

  function Signers(sc: Scheme, signed: Signatures, msg: bytes): set<nat> {
    set j: nat | j < sc.size && (j, msg) in signed
  }

  predicate Quorum(sc: Scheme, signed: Signatures, msg: bytes) {
    |Signers(sc, signed, msg)| >= sc.threshold
  }

  predicate KnownPartial(sc: Scheme, signed: Signatures, msg: bytes, p: bytes) {
    exists j: nat | j < sc.size :: (j, msg) in signed && p == sc.partial(j, msg)
  }

  /** One iteration of `loopReceiveGroupMessages` on a decoded message. */
  function Received(sc: Scheme, signed: Signatures, s: Store, e: Event, sig: bytes): Store {
    var msg := Message(e);
    if !Encodable(Unsigned(e)) || e.process !in s.nonces then s
    else if |sig| == FULL_SIZE then
      if sig == sc.full(msg) && Quorum(sc, signed, msg) then WriteSigned(s, e.(signature := sig)) else s
    else if s.Full(KeyOf(e)) then s
    else if KnownPartial(sc, signed, msg, sig) then Append(sc, s, e, sig)
    else s
  }

  /** A step whose guard fails leaves the network as it is. */
  function Next(c: Config, net: Net, step: Step): (r: Net)
    ensures |r.stores| == |net.stores|
  {
    match step
    case FaultySign(i, msg) =>
      if i in c.faulty && i < c.sc.size then net.(signed := net.signed + {(i, msg)}) else net
    case Sign(i, e) =>
      if i < |net.stores| && i < c.sc.size && e in net.stores[i].admitted.Values && e.signature == [] && Encodable(e)
      then net.(signed := net.signed + {(i, Message(e))}) else net
    case AddProcess(i, pid) =>
      if i < |net.stores| && pid !in net.stores[i].nonces
      then WithStore(net, i, net.stores[i].(nonces := net.stores[i].nonces[pid := 0])) else net
    case AdmitEvent(i, e, id) =>
      if i < |net.stores| && e.signature == [] && CanAdmit(net.stores[i], e, id)
      then WithStore(net, i, Admit(net.stores[i], e, id)) else net
    case Receive(i, e, sig) =>
      if i < |net.stores| then WithStore(net, i, Received(c.sc, net.signed, net.stores[i], e, sig)) else net
    case ExpireSigned(i, events) =>
      if i < |net.stores| then WithStore(net, i, Expire(net.stores[i], events)) else net
  }

  function WithStore(net: Net, i: nat, s: Store): Net
    requires i < |net.stores|
  {
    net.(stores := net.stores[i := s])
  }

  function Run(c: Config, steps: seq<Step>): (net: Net)
    ensures |net.stores| == c.sc.size
  {
    if steps == [] then Net(seq(c.sc.size, _ => EMPTY_STORE), {})
    else Next(c, Run(c, steps[..|steps| - 1]), steps[|steps| - 1])
  }

  // ---------- the messages of a run ----------

  /** The message a step signs or checks signatures on */
  function Mentions(step: Step): set<bytes> {
    match step
    case Sign(_, e) => {Message(e)}
    case FaultySign(_, msg) => {msg}
    case Receive(_, e, _) => {Message(e)}
    case _ => {}
  }

  function Mentioned(steps: seq<Step>): set<bytes> {
    if steps == [] then {} else Mentioned(steps[..|steps| - 1]) + Mentions(steps[|steps| - 1])
  }

  ghost predicate SignedIn(sc: Scheme, signed: Signatures, messages: set<bytes>) {
    forall j: nat, m :: (j, m) in signed ==> j < sc.size && m in messages
  }

  /** Only mentioned messages are signed, and only by members. */
  lemma {:induction false} SignedMentioned(c: Config, steps: seq<Step>)
    ensures SignedIn(c.sc, Run(c, steps).signed, Mentioned(steps))
  {
    if steps != [] {
      SignedMentioned(c, steps[..|steps| - 1]);
    }
  }

  // ---------- what every step keeps ----------

  ghost predicate Genuine(sc: Scheme, signed: Signatures, p: bytes) {
    exists j: nat, m: bytes :: (j, m) in signed && p == sc.partial(j, m)
  }

  /** A cell below the threshold: some partials that members did make, each once. */
  ghost predicate PartialCell(sc: Scheme, signed: Signatures, cell: bytes) {
    && |cell| % PARTIAL_SIZE == 0 && |cell| >= PARTIAL_SIZE
    && NoDuplicates(Chunks(cell))
    && forall p :: p in Chunks(cell) ==> Genuine(sc, signed, p)
  }

  ghost predicate Certifies(sc: Scheme, signed: Signatures, e: Event, cell: bytes) {
    && Encodable(Unsigned(e))
    && cell == sc.full(Message(e))
    && Quorum(sc, signed, Message(e))
  }

  ghost predicate CellsOk(sc: Scheme, signed: Signatures, s: Store) {
    forall k :: k in s.cells ==>
      if s.Full(k) then exists e :: KeyOf(e) == k && Certifies(sc, signed, e, s.cells[k])
      else PartialCell(sc, signed, s.cells[k])
  }

  ghost predicate QueueEntryOk(sc: Scheme, signed: Signatures, k: Key, cell: bytes, e: Event) {
    && KeyOf(e) == k
    && e.signature == cell && |cell| == FULL_SIZE
    && Certifies(sc, signed, e, cell)
  }

  ghost predicate QueueOk(sc: Scheme, signed: Signatures, s: Store) {
    forall k :: k in s.signedQueue ==> k in s.cells && QueueEntryOk(sc, signed, k, s.cells[k], s.signedQueue[k])
  }

  /** Each key entered the signed queue at most once, namely when its cell became full. */
  ghost predicate EnteredOk(s: Store) {
    && NoDuplicates(s.entered)
    && (forall k :: k in s.entered <==> s.Full(k))
  }

  ghost predicate AdmissionsOk(s: Store) {
    && (forall k :: k in s.admitted ==>
         && KeyOf(s.admitted[k]) == k && s.admitted[k].signature == []
         && k.0 in s.nonces && k.1 < s.nonces[k.0])
    && (forall tk :: tk in s.pending ==>
         var e := s.pending[tk];
         TimedKeyOf(e) == tk && KeyOf(e) in s.admitted && s.admitted[KeyOf(e)] == e)
  }

  ghost predicate StoreOk(sc: Scheme, signed: Signatures, s: Store) {
    AdmissionsOk(s) && CellsOk(sc, signed, s) && QueueOk(sc, signed, s) && EnteredOk(s)
  }

  /** Whatever an honest node signed is its own local event of that nonce. */
  ghost predicate SignsOwn(signed: Signatures, i: nat, s: Store) {
    forall m :: (i, m) in signed ==>
      exists k :: k in s.admitted && Encodable(s.admitted[k]) && Message(s.admitted[k]) == m
  }

  ghost predicate Honest(c: Config, i: nat) {
    i < c.sc.size && i !in c.faulty
  }

  ghost predicate Inv(c: Config, net: Net) {
    && |net.stores| == c.sc.size
    && forall i: nat :: Honest(c, i) ==> StoreOk(c.sc, net.signed, net.stores[i]) && SignsOwn(net.signed, i, net.stores[i])
  }

  lemma {:induction false} SubsetSize<T>(a: set<T>, b: set<T>)
    requires a <= b
    ensures |a| <= |b|
  {
    assert b == a + (b - a);
  }

  lemma StoreOkGrows(sc: Scheme, signed: Signatures, signed': Signatures, s: Store)
    requires signed <= signed' && StoreOk(sc, signed, s)
    ensures StoreOk(sc, signed', s)
  {
    forall e, cell | Certifies(sc, signed, e, cell)
      ensures Certifies(sc, signed', e, cell)
    {
      SubsetSize(Signers(sc, signed, Message(e)), Signers(sc, signed', Message(e)));
    }
    forall p | Genuine(sc, signed, p)
      ensures Genuine(sc, signed', p)
    {
    }
  }

  lemma WriteSignedCells(sc: Scheme, signed: Signatures, s: Store, e: Event)
    requires CellsOk(sc, signed, s) && !s.Full(KeyOf(e))
    requires |e.signature| == FULL_SIZE && Certifies(sc, signed, e, e.signature)
    ensures CellsOk(sc, signed, WriteSigned(s, e))
  {
  }

  lemma WriteSignedQueue(sc: Scheme, signed: Signatures, s: Store, e: Event)
    requires QueueOk(sc, signed, s) && !s.Full(KeyOf(e))
    requires |e.signature| == FULL_SIZE && Certifies(sc, signed, e, e.signature)
    ensures QueueOk(sc, signed, WriteSigned(s, e))
  {
  }

  lemma WriteSignedEntered(s: Store, e: Event)
    requires EnteredOk(s) && !s.Full(KeyOf(e)) && |e.signature| == FULL_SIZE
    ensures EnteredOk(WriteSigned(s, e))
  {
  }

  lemma WriteSignedOk(sc: Scheme, signed: Signatures, s: Store, e: Event)
    requires StoreOk(sc, signed, s)
    requires |e.signature| == FULL_SIZE && Certifies(sc, signed, e, e.signature)
    ensures StoreOk(sc, signed, WriteSigned(s, e))
  {
    if !s.Full(KeyOf(e)) {
      WriteSignedCells(sc, signed, s, e);
      WriteSignedQueue(sc, signed, s, e);
      WriteSignedEntered(s, e);
    }
  }

  lemma WritePartialsOk(sc: Scheme, signed: Signatures, s: Store, k: Key, ps: seq<bytes>)
    requires StoreOk(sc, signed, s) && !s.Full(k)
    requires AllPartials(ps) && ps != [] && NoDuplicates(ps)
    requires forall p :: p in ps ==> Genuine(sc, signed, p)
    ensures StoreOk(sc, signed, WritePartials(s, k, ps))
  {
    JoinLength(ps);
    ChunksJoin(ps);
    var s' := WritePartials(s, k, ps);
    assert PartialCell(sc, signed, s'.cells[k]);
    forall k'
      ensures s'.Full(k') == s.Full(k')
    {
    }
  }

  /** Distinct partials that verify on one message come from as many different signers. */
  lemma {:induction false} CountSigners(sc: Scheme, ps: seq<bytes>, msg: bytes, signers: set<nat>)
    requires NoDuplicates(ps)
    requires forall p :: p in ps ==> exists j: nat :: j in signers && p == sc.partial(j, msg)
    ensures |signers| >= |ps|
  {
    if ps != [] {
      var last := ps[|ps| - 1];
      assert last in ps;
      var j: nat :| j in signers && last == sc.partial(j, msg);
      var front := ps[..|ps| - 1];
      forall p | p in front
        ensures exists i: nat :: i in signers - {j} && p == sc.partial(i, msg)
      {
        assert p in ps && p != last;
        var i: nat :| i in signers && p == sc.partial(i, msg);
        assert i in signers - {j};
      }
      CountSigners(sc, front, msg, signers - {j});
    }
  }

  /** A stored partial that verifies on `msg` was made by a member that signed `msg`. */
  lemma VerifiedIsKnown(sc: Scheme, messages: set<bytes>, signed: Signatures, msg: bytes, p: bytes)
    requires sc.Ideal(messages) && SignedIn(sc, signed, messages) && msg in messages
    requires Genuine(sc, signed, p) && sc.VerifyPartial(msg, p)
    ensures exists j: nat :: j in Signers(sc, signed, msg) && p == sc.partial(j, msg)
  {
  }

  /** The list that `Append` builds: distinct, and each made by a member that signed the message. */
  lemma AppendedPartials(sc: Scheme, messages: set<bytes>, signed: Signatures, s: Store, e: Event, p: bytes)
      returns (all: seq<bytes>)
    requires sc.Ideal(messages) && SignedIn(sc, signed, messages) && Message(e) in messages
    requires CellsOk(sc, signed, s) && !s.Full(KeyOf(e))
    requires KnownPartial(sc, signed, Message(e), p)
    requires p !in KeepValid(sc, Message(e), Partials(s, KeyOf(e)))
    ensures all == KeepValid(sc, Message(e), Partials(s, KeyOf(e))) + [p]
    ensures AllPartials(all) && NoDuplicates(all)
    ensures forall x :: x in all ==> Genuine(sc, signed, x)
    ensures |all| <= |Signers(sc, signed, Message(e))|
  {
    var msg := Message(e);
    var stored := Partials(s, KeyOf(e));
    var kept := KeepValid(sc, msg, stored);
    all := kept + [p];
    KeepValidDistinct(sc, msg, stored);
    forall x | x in all
      ensures exists j: nat :: j in Signers(sc, signed, msg) && x == sc.partial(j, msg)
      ensures Genuine(sc, signed, x)
    {
      if x in kept {
        assert Genuine(sc, signed, x);
        VerifiedIsKnown(sc, messages, signed, msg, x);
      } else {
        var j: nat :| j < sc.size && (j, msg) in signed && p == sc.partial(j, msg);
        assert j in Signers(sc, signed, msg);
      }
    }
    forall i | 0 <= i < |all| ensures |all[i]| == PARTIAL_SIZE {
      assert all[i] in all;
    }
    CountSigners(sc, all, msg, Signers(sc, signed, msg));
  }

  /** What `Append` does to a store that is not yet full: nothing, a longer list, or a certified event. */
  lemma AppendCases(sc: Scheme, messages: set<bytes>, signed: Signatures, s: Store, e: Event, p: bytes)
    requires sc.Ideal(messages) && SignedIn(sc, signed, messages) && Message(e) in messages
    requires StoreOk(sc, signed, s)
    requires Encodable(Unsigned(e)) && KnownPartial(sc, signed, Message(e), p)
    ensures StoreOk(sc, signed, Append(sc, s, e, p))
    ensures var s', e' := Append(sc, s, e, p), e.(signature := sc.full(Message(e)));
      || s' == s.(cells := s'.cells)
      || (s' == WriteSigned(s, e') && Quorum(sc, signed, Message(e)))
  {
    if !s.Full(KeyOf(e)) && p !in KeepValid(sc, Message(e), Partials(s, KeyOf(e))) {
      var all := AppendedPartials(sc, messages, signed, s, e, p);
      if |all| < sc.threshold {
        WritePartialsOk(sc, signed, s, KeyOf(e), all);
      } else {
        CertifiesWith(sc, signed, e, sc.full(Message(e)));
        WriteSignedOk(sc, signed, s, e.(signature := sc.full(Message(e))));
      }
    }
  }

  lemma CertifiesWith(sc: Scheme, signed: Signatures, e: Event, sig: bytes)
    requires Encodable(Unsigned(e)) && sig == sc.full(Message(e)) && Quorum(sc, signed, Message(e))
    ensures Certifies(sc, signed, e.(signature := sig), sig)
  {
  }

  lemma ReceivedCases(sc: Scheme, messages: set<bytes>, signed: Signatures, s: Store, e: Event, sig: bytes)
    requires sc.Ideal(messages) && SignedIn(sc, signed, messages) && Message(e) in messages
    requires StoreOk(sc, signed, s)
    ensures StoreOk(sc, signed, Received(sc, signed, s, e, sig))
    ensures var s', e' := Received(sc, signed, s, e, sig), e.(signature := sc.full(Message(e)));
      || s' == s.(cells := s'.cells)
      || (s' == WriteSigned(s, e') && Certifies(sc, signed, e', e'.signature))
  {
    var msg := Message(e);
    if Encodable(Unsigned(e)) && e.process in s.nonces {
      if |sig| == FULL_SIZE {
        if sig == sc.full(msg) && Quorum(sc, signed, msg) {
          CertifiesWith(sc, signed, e, sig);
          WriteSignedOk(sc, signed, s, e.(signature := sig));
        }
      } else if !s.Full(KeyOf(e)) && KnownPartial(sc, signed, msg, sig) {
        AppendCases(sc, messages, signed, s, e, sig);
        if Quorum(sc, signed, msg) {
          CertifiesWith(sc, signed, e, sc.full(msg));
        }
      }
    }
  }

  lemma AdmitOk(sc: Scheme, signed: Signatures, s: Store, e: Event, id: string)
    requires StoreOk(sc, signed, s) && CanAdmit(s, e, id) && e.signature == []
    ensures StoreOk(sc, signed, Admit(s, e, id))
    ensures KeyOf(e) !in s.admitted
  {
  }

  lemma AddProcessOk(sc: Scheme, signed: Signatures, s: Store, pid: uuid)
    requires StoreOk(sc, signed, s) && pid !in s.nonces
    ensures StoreOk(sc, signed, s.(nonces := s.nonces[pid := 0]))
  {
  }

  lemma ExpireOk(sc: Scheme, signed: Signatures, s: Store, events: seq<Event>)
    requires StoreOk(sc, signed, s)
    ensures StoreOk(sc, signed, Expire(s, events))
  {
  }

  lemma SignsOwnGrows(signed: Signatures, signed': Signatures, i: nat, s: Store, s': Store)
    requires SignsOwn(signed, i, s)
    requires forall m :: (i, m) in signed' && (i, m) !in signed ==>
      exists k :: k in s'.admitted && Encodable(s'.admitted[k]) && Message(s'.admitted[k]) == m
    requires forall k :: k in s.admitted ==> k in s'.admitted && s'.admitted[k] == s.admitted[k]
    ensures SignsOwn(signed', i, s')
  {
  }

  lemma NodeKeepsInv(c: Config, messages: set<bytes>, net: Net, step: Step, i: nat)
    requires c.sc.Ideal(messages) && SignedIn(c.sc, net.signed, messages) && Mentions(step) <= messages
    requires Inv(c, net) && Honest(c, i)
    ensures StoreOk(c.sc, Next(c, net, step).signed, Next(c, net, step).stores[i])
    ensures SignsOwn(Next(c, net, step).signed, i, Next(c, net, step).stores[i])
  {
    hide CellsOk, QueueOk, EnteredOk, Encodable, Encoded, Received;
    var net', s := Next(c, net, step), net.stores[i];
    match step
    case FaultySign(_, _) =>
      StoreOkGrows(c.sc, net.signed, net'.signed, s);
    case Sign(j, e) =>
      StoreOkGrows(c.sc, net.signed, net'.signed, s);
      if net' != net && j == i {
        var k :| k in s.admitted && s.admitted[k] == e;
        SignsOwnGrows(net.signed, net'.signed, i, s, s);
      }
    case AddProcess(j, pid) =>
      if j == i && net' != net {
        AddProcessOk(c.sc, net.signed, s, pid);
        SignsOwnGrows(net.signed, net.signed, i, s, net'.stores[i]);
      }
    case ExpireSigned(j, events) =>
      if j == i {
        ExpireOk(c.sc, net.signed, s, events);
        SignsOwnGrows(net.signed, net.signed, i, s, net'.stores[i]);
      }
    case AdmitEvent(j, e, id) =>
      if j == i && net' != net {
        AdmitOk(c.sc, net.signed, s, e, id);
        SignsOwnGrows(net.signed, net.signed, i, s, net'.stores[i]);
      }
    case Receive(j, e, sig) =>
      if j == i {
        ReceivedCases(c.sc, messages, net.signed, s, e, sig);
        SignsOwnGrows(net.signed, net.signed, i, s, net'.stores[i]);
      }
  }

  lemma NextKeepsInv(c: Config, messages: set<bytes>, net: Net, step: Step)
    requires c.sc.Ideal(messages) && SignedIn(c.sc, net.signed, messages) && Mentions(step) <= messages
    requires Inv(c, net)
    ensures Inv(c, Next(c, net, step))
  {
    forall i: nat | Honest(c, i)
      ensures StoreOk(c.sc, Next(c, net, step).signed, Next(c, net, step).stores[i])
      ensures SignsOwn(Next(c, net, step).signed, i, Next(c, net, step).stores[i])
    {
      NodeKeepsInv(c, messages, net, step, i);
    }
  }

  lemma {:induction false} RunKeepsInv(c: Config, steps: seq<Step>)
    requires c.sc.Ideal(Mentioned(steps))
    ensures Inv(c, Run(c, steps))
  {
    if steps != [] {
      var before, last := steps[..|steps| - 1], steps[|steps| - 1];
      RunKeepsInv(c, before);
      SignedMentioned(c, before);
      NextKeepsInv(c, Mentioned(steps), Run(c, before), last);
    }
  }
}
